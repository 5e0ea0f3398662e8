/** Blocks and the block store of common/blockchain. */
module Blockchain {
  import opened Common
  import Merkle

  // A signature as the threshold scheme hands it out. A share names its signer, a
  // combined signature the signers whose shares it was recovered from.
  datatype Signature =
    | NoSign
    | Share(signer: nat, content: Bytes)
    | Combined(signers: set<nat>, content: Bytes)

  datatype BlockHeader = BlockHeader(
    height: int, viewNumber: int, timeStamp: int,
    preBlkHash: Bytes, rootHash: Bytes, validation: Signature, blkDataHash: Bytes)

  datatype BlockData = BlockData(height: int, rootHash: Bytes, trans: seq<Bytes>) {
    function Hash(sum: Hasher): Bytes {
      sum([ToByte(height)] + rootHash + Concat(trans))
    }
  }

  datatype Block = Block(blkHdr: BlockHeader, blkData: BlockData) {
    // The validation is not part of what is hashed.
    function HashedBytes(): Bytes {
      [ToByte(blkHdr.height), ToByte(blkHdr.viewNumber), ToByte(blkHdr.timeStamp)]
      + blkHdr.preBlkHash + blkHdr.rootHash + blkHdr.blkDataHash
      + [ToByte(blkData.height)] + blkHdr.rootHash + Concat(blkData.trans)
    }

    function Hash(sum: Hasher): Bytes {
      sum(HashedBytes())
    }

    predicate IsEmpty() {
      |blkData.trans| == 0
    }

    function WithValidation(sign: Signature): Block {
      this.(blkHdr := blkHdr.(validation := sign))
    }

    function Bare(): Block {
      WithValidation(NoSign)
    }
  }

  // Blocks without their validations.
  function BareAll(blks: seq<Block>): seq<Block> {
    seq(|blks|, i requires 0 <= i < |blks| => blks[i].Bare())
  }

  lemma ValidationNotHashed(b: Block, sign: Signature)
    ensures b.WithValidation(sign).HashedBytes() == b.HashedBytes()
    ensures b.Bare().HashedBytes() == b.HashedBytes()
  {
  }

  /* What a hash binds */

  // Header hashes as a store fills them in.
  predicate HasDigests(b: Block) {
    |b.blkHdr.preBlkHash| == |b.blkHdr.rootHash| == |b.blkHdr.blkDataHash| == DIGEST_LENGTH
  }

  predicate SameRowLengths(a: seq<Bytes>, b: seq<Bytes>) {
    |a| == |b| && forall i :: 0 <= i < |a| ==> |a[i]| == |b[i]|
  }

  // Numbers are hashed as one byte, and transactions are joined without a separator.
  ghost predicate SameContents(a: Block, b: Block) {
    && a.blkHdr.height % 256 == b.blkHdr.height % 256 && a.blkHdr.viewNumber % 256 == b.blkHdr.viewNumber % 256
    && a.blkHdr.timeStamp % 256 == b.blkHdr.timeStamp % 256 && a.blkData.height % 256 == b.blkData.height % 256
    && a.blkHdr.preBlkHash == b.blkHdr.preBlkHash && a.blkHdr.rootHash == b.blkHdr.rootHash && a.blkHdr.blkDataHash == b.blkHdr.blkDataHash
    && Concat(a.blkData.trans) == Concat(b.blkData.trans)
    && (SameRowLengths(a.blkData.trans, b.blkData.trans) ==> a.blkData.trans == b.blkData.trans)
  }

  lemma {:induction false} ConcatFixesRows(a: seq<Bytes>, b: seq<Bytes>)
    requires Concat(a) == Concat(b) && SameRowLengths(a, b)
    ensures a == b
  {
    if a != [] {
      assert Concat(a)[..|a[0]|] == a[0] && Concat(b)[..|b[0]|] == b[0];
      assert Concat(a)[|a[0]|..] == Concat(a[1..]) && Concat(b)[|b[0]|..] == Concat(b[1..]);
      ConcatFixesRows(a[1..], b[1..]);
      assert a == [a[0]] + a[1..] && b == [b[0]] + b[1..];
    }
  }

  // Where the parts of the hashed bytes lie.
  lemma HashedParts(b: Block)
    requires HasDigests(b)
    ensures var s := b.HashedBytes();
      && |s| >= 132 && s[0] == b.blkHdr.height % 256 && s[1] == b.blkHdr.viewNumber % 256 && s[2] == b.blkHdr.timeStamp % 256
      && s[3..35] == b.blkHdr.preBlkHash && s[35..67] == b.blkHdr.rootHash && s[67..99] == b.blkHdr.blkDataHash
      && s[99] == b.blkData.height % 256 && s[132..] == Concat(b.blkData.trans)
  {
  }

  // Two blocks with one hash have the same contents, or their hashed bytes collide.
  lemma HashBinds(sum: Hasher, a: Block, b: Block)
    requires HasDigests(a) && HasDigests(b) && a.Hash(sum) == b.Hash(sum)
    ensures SameContents(a, b) || Collides(sum, a.HashedBytes(), b.HashedBytes())
  {
    HashedParts(a);
    HashedParts(b);
    hide Block.HashedBytes;
    if a.HashedBytes() == b.HashedBytes() && SameRowLengths(a.blkData.trans, b.blkData.trans) {
      ConcatFixesRows(a.blkData.trans, b.blkData.trans);
    }
  }

  // The data hash of a header binds height, root and transactions in the same way.
  lemma DataHashBinds(sum: Hasher, a: BlockData, b: BlockData) returns (p: Bytes, q: Bytes)
    requires |a.rootHash| == |b.rootHash| == DIGEST_LENGTH && a.Hash(sum) == b.Hash(sum)
    ensures Collides(sum, p, q)
      || (a.height % 256 == b.height % 256 && a.rootHash == b.rootHash && Concat(a.trans) == Concat(b.trans)
          && (SameRowLengths(a.trans, b.trans) ==> a.trans == b.trans))
  {
    p, q := [ToByte(a.height)] + a.rootHash + Concat(a.trans), [ToByte(b.height)] + b.rootHash + Concat(b.trans);
    if p == q {
      assert p[0] == ToByte(a.height) && p[1..33] == a.rootHash && p[33..] == Concat(a.trans);
      assert q[0] == ToByte(b.height) && q[1..33] == b.rootHash && q[33..] == Concat(b.trans);
      if SameRowLengths(a.trans, b.trans) { ConcatFixesRows(a.trans, b.trans); }
    }
  }

  const EMPTY_BLOCK := Block(BlockHeader(0, 0, 0, [], [], NoSign, []), BlockData(0, [], []))

  // A block as it is filled in for a proposal.
  function NewBlock(sum: Hasher, height: int, viewNumber: int, timeStamp: int, preBlkHash: Bytes, commands: seq<Bytes>): Block {
    var data := BlockData(height, Merkle.HashFromByteSlices(sum, commands), commands);
    Block(BlockHeader(height, viewNumber, timeStamp, preBlkHash, data.rootHash, NoSign, data.Hash(sum)), data)
  }

  // The fields of a BlockStore, and the blocks written so far, in order.
  datatype Store = Store(
    height: int, generatedHeight: int, preBlkHash: Bytes, curBlkHash: Bytes,
    curProposalBlk: Block, written: seq<Block>)
  {
    function GenNewBlock(sum: Hasher, viewNumber: int, commands: seq<Bytes>, timeStamp: int): Store {
      var blk := NewBlock(sum, height, viewNumber, timeStamp, preBlkHash, commands);
      this.(curProposalBlk := blk, curBlkHash := blk.Hash(sum))
    }

    function GenNewBlockAt(sum: Hasher, viewNumber: int, commands: seq<Bytes>, newHeight: int, timeStamp: int): Store {
      var blk := NewBlock(sum, newHeight, viewNumber, timeStamp, preBlkHash, commands);
      this.(generatedHeight := generatedHeight + 1, curProposalBlk := blk, curBlkHash := blk.Hash(sum))
    }

    function StoreBlock(blk: Block): Store {
      this.(height := height + 1, written := written + [blk], preBlkHash := curBlkHash, curBlkHash := [])
    }

    function GenEmptyBlock(sum: Hasher): Store {
      this.(curProposalBlk := EMPTY_BLOCK, curBlkHash := Merkle.EmptyHash(sum))
    }
  }

  function NewStore(sum: Hasher): Store {
    Store(0, 0, Merkle.EmptyHash(sum), Merkle.EmptyHash(sum), EMPTY_BLOCK, [])
  }

  /* The hash chain */

  // Heights count up from 0 and every block names the hash of the one before it.
  ghost predicate IsChain(sum: Hasher, blocks: seq<Block>) {
    && (forall i :: 0 <= i < |blocks| ==> blocks[i].blkHdr.height == i && blocks[i].blkData.height == i)
    && (forall i :: 0 < i < |blocks| ==> blocks[i].blkHdr.preBlkHash == blocks[i - 1].Hash(sum))
    && (blocks != [] ==> blocks[0].blkHdr.preBlkHash == Merkle.EmptyHash(sum))
  }

  function Tip(sum: Hasher, blocks: seq<Block>): Bytes {
    if blocks == [] then Merkle.EmptyHash(sum) else blocks[|blocks| - 1].Hash(sum)
  }

  // One turn of the store: blocks are generated, empty ones among them, and the last of them is
  // stored with any validation filled in.
  datatype Generation = New(viewNumber: int, commands: seq<Bytes>, timeStamp: int) | Empty
  datatype Turn = Turn(generations: seq<Generation>, validation: Signature) {
    // The turn stores a block generated in it.
    predicate IsFresh() {
      generations != [] && generations[|generations| - 1].New?
    }
  }

  function Generate(sum: Hasher, s: Store, gs: seq<Generation>): Store {
    if gs == [] then s
    else
      var g := gs[|gs| - 1];
      var s1 := Generate(sum, s, gs[..|gs| - 1]);
      if g.New? then s1.GenNewBlock(sum, g.viewNumber, g.commands, g.timeStamp) else s1.GenEmptyBlock(sum)
  }

  function PlayTurn(sum: Hasher, s: Store, t: Turn): Store {
    var s1 := Generate(sum, s, t.generations);
    s1.StoreBlock(s1.curProposalBlk.WithValidation(t.validation))
  }

  function Play(sum: Hasher, turns: seq<Turn>): Store {
    if turns == [] then NewStore(sum)
    else PlayTurn(sum, Play(sum, turns[..|turns| - 1]), turns[|turns| - 1])
  }

  lemma {:induction false} GenerateKeepsChainEnd(sum: Hasher, s: Store, gs: seq<Generation>)
    ensures var s1 := Generate(sum, s, gs);
      && s1.height == s.height && s1.preBlkHash == s.preBlkHash && s1.written == s.written
      && (gs == [] ==> s1 == s)
      && (gs != [] && gs[|gs| - 1].Empty? ==> s1.curProposalBlk == EMPTY_BLOCK)
      && (gs != [] && gs[|gs| - 1].New? ==>
            && s1.curBlkHash == s1.curProposalBlk.Hash(sum)
            && s1.curProposalBlk.blkHdr.height == s1.curProposalBlk.blkData.height == s.height
            && s1.curProposalBlk.blkHdr.preBlkHash == s.preBlkHash)
  {
    if gs != [] {
      GenerateKeepsChainEnd(sum, s, gs[..|gs| - 1]);
    }
  }

  // What every run keeps, also a run that stores what it did not generate: the height counts the
  // writes, and no block has a height above its place among them.
  lemma {:induction false} RunCounts(sum: Hasher, turns: seq<Turn>)
    ensures var s := Play(sum, turns);
      && |s.written| == |turns| == s.height
      && (turns == [] ==> s == NewStore(sum))
      && (turns != [] ==> 0 <= s.curProposalBlk.blkHdr.height < |turns|)
      && forall i :: 0 <= i < |turns| ==> 0 <= s.written[i].blkHdr.height <= i
  {
    if turns != [] {
      RunCounts(sum, turns[..|turns| - 1]);
      GenerateKeepsChainEnd(sum, Play(sum, turns[..|turns| - 1]), turns[|turns| - 1].generations);
    }
  }

  lemma GeneratingTurnExtends(sum: Hasher, s: Store, t: Turn)
    requires t.IsFresh()
    requires IsChain(sum, s.written) && s.height == |s.written| && s.preBlkHash == Tip(sum, s.written)
    ensures IsChain(sum, PlayTurn(sum, s, t).written)
    ensures PlayTurn(sum, s, t).preBlkHash == Tip(sum, PlayTurn(sum, s, t).written)
  {
    GenerateKeepsChainEnd(sum, s, t.generations);
  }

  lemma EmptyTurnBreaks(sum: Hasher, before: seq<Turn>, t: Turn)
    requires IsDigest(sum)
    requires !t.IsFresh()
    ensures !IsChain(sum, PlayTurn(sum, Play(sum, before), t).written)
  {
    RunCounts(sum, before);
    GenerateKeepsChainEnd(sum, Play(sum, before), t.generations);
    var blocks := PlayTurn(sum, Play(sum, before), t).written;
    var blk := blocks[|before|];
    assert blk.blkHdr.height != |before| || blk.blkHdr.preBlkHash == [];
  }

  lemma ChainOfPrefix(sum: Hasher, s: Store, t: Turn)
    requires !IsChain(sum, s.written)
    ensures !IsChain(sum, PlayTurn(sum, s, t).written)
  {
    GenerateKeepsChainEnd(sum, s, t.generations);
    var later := PlayTurn(sum, s, t).written;
    assert s.written == later[..|s.written|];
  }

  lemma PlayLast(sum: Hasher, before: seq<Turn>, last: Turn)
    ensures Play(sum, before + [last]) == PlayTurn(sum, Play(sum, before), last)
  {
    assert (before + [last])[..|before|] == before;
  }

  // The writes of a run form a hash chain, one block a turn, exactly when every turn stores
  // a block that it generated last.
  lemma {:induction false} StoredBlocksFormChain(sum: Hasher, turns: seq<Turn>)
    requires IsDigest(sum)
    ensures IsChain(sum, Play(sum, turns).written) <==> forall t <- turns :: t.IsFresh()
    ensures (forall t <- turns :: t.IsFresh()) ==> Play(sum, turns).preBlkHash == Tip(sum, Play(sum, turns).written)
  {
    if turns != [] {
      var before, last := turns[..|turns| - 1], turns[|turns| - 1];
      assert turns == before + [last];
      StoredBlocksFormChain(sum, before);
      RunCounts(sum, before);
      PlayLast(sum, before, last);
      hide Play, PlayTurn, IsChain, Tip, Turn.IsFresh;
      if !last.IsFresh() {
        assert last in turns;
        EmptyTurnBreaks(sum, before, last);
      } else if forall t <- before :: t.IsFresh() {
        GeneratingTurnExtends(sum, Play(sum, before), last);
      } else {
        ChainOfPrefix(sum, Play(sum, before), last);
      }
    }
  }

  /* What a chain binds */

  // Two chains of one length with one tip are the same block by block, or expose a collision.
  lemma {:induction false} ChainsBind(sum: Hasher, xs: seq<Block>, ys: seq<Block>) returns (p: Bytes, q: Bytes)
    requires IsChain(sum, xs) && IsChain(sum, ys) && |xs| == |ys| && Tip(sum, xs) == Tip(sum, ys)
    requires (forall i :: 0 <= i < |xs| ==> HasDigests(xs[i])) && (forall i :: 0 <= i < |ys| ==> HasDigests(ys[i]))
    ensures Collides(sum, p, q) || forall i :: 0 <= i < |xs| ==> SameContents(xs[i], ys[i])
  {
    p, q := [], [];
    hide SameContents, HasDigests, Block.Hash, Block.HashedBytes, IsChain, Tip, Collides;
    if xs != [] {
      var n := |xs| - 1;
      ChainBefore(sum, xs);
      ChainBefore(sum, ys);
      HashBinds(sum, xs[n], ys[n]);
      if Collides(sum, xs[n].HashedBytes(), ys[n].HashedBytes()) {
        p, q := xs[n].HashedBytes(), ys[n].HashedBytes();
      } else {
        SameParent(xs[n], ys[n]);
        p, q := ChainsBind(sum, xs[..n], ys[..n]);
        forall i | 0 <= i < n && !Collides(sum, p, q) ensures SameContents(xs[i], ys[i]) {
          assert xs[..n][i] == xs[i] && ys[..n][i] == ys[i];
        }
      }
    }
  }

  lemma ChainBefore(sum: Hasher, xs: seq<Block>)
    requires IsChain(sum, xs) && xs != []
    ensures IsChain(sum, xs[..|xs| - 1]) && Tip(sum, xs[..|xs| - 1]) == xs[|xs| - 1].blkHdr.preBlkHash
    ensures Tip(sum, xs) == xs[|xs| - 1].Hash(sum)
  {
    hide Block.Hash;
  }

  lemma SameParent(a: Block, b: Block)
    requires SameContents(a, b)
    ensures a.blkHdr.preBlkHash == b.blkHdr.preBlkHash
  {
  }

  // A block as a store makes one: its root is that of its transactions, its data hash that of its data.
  predicate IsMade(sum: Hasher, b: Block) {
    && b.blkHdr.rootHash == b.blkData.rootHash == Merkle.HashFromByteSlices(sum, b.blkData.trans)
    && b.blkHdr.blkDataHash == b.blkData.Hash(sum) && b.blkHdr.height == b.blkData.height
  }

  predicate IsMadeIn(sum: Hasher, b: Block, t: Turn) {
    t.generations != [] && IsMadeBy(sum, b, t.generations[|t.generations| - 1])
  }

  predicate IsMadeBy(sum: Hasher, b: Block, g: Generation) {
    && IsMade(sum, b) && |b.blkHdr.preBlkHash| == DIGEST_LENGTH
    && g.New? && b.blkData.trans == g.commands && b.blkHdr.viewNumber == g.viewNumber && b.blkHdr.timeStamp == g.timeStamp
  }

  lemma {:induction false} GenerateMakes(sum: Hasher, s: Store, gs: seq<Generation>)
    requires |s.preBlkHash| == DIGEST_LENGTH && gs != [] && gs[|gs| - 1].New?
    ensures var s1 := Generate(sum, s, gs);
      IsMadeBy(sum, s1.curProposalBlk, gs[|gs| - 1])
  {
    GenerateKeepsChainEnd(sum, s, gs[..|gs| - 1]);
  }

  lemma TurnMakes(sum: Hasher, s: Store, t: Turn)
    requires |s.preBlkHash| == DIGEST_LENGTH && t.IsFresh() && IsDigest(sum)
    ensures var s1 := PlayTurn(sum, s, t);
      && |s1.written| == |s.written| + 1 && s1.written[..|s.written|] == s.written && |s1.preBlkHash| == DIGEST_LENGTH
      && IsMadeIn(sum, s1.written[|s.written|], t)
  {
    GenerateMakes(sum, s, t.generations);
    GenerateKeepsChainEnd(sum, s, t.generations);
    hide Generate;
  }

  // Every block that a run of fresh turns stores is made by the store, of what was generated last.
  lemma {:induction false} StoredBlocksAreMade(sum: Hasher, turns: seq<Turn>)
    requires IsDigest(sum) && forall t <- turns :: t.IsFresh()
    ensures var s := Play(sum, turns);
      && |s.written| == |turns| && |s.preBlkHash| == DIGEST_LENGTH
      && forall k :: 0 <= k < |turns| ==> IsMadeIn(sum, s.written[k], turns[k])
  {
    if turns != [] {
      var n := |turns| - 1;
      assert turns[n] in turns && turns[..n] + [turns[n]] == turns && forall t <- turns[..n] :: t in turns;
      StoredBlocksAreMade(sum, turns[..n]);
      PlayLast(sum, turns[..n], turns[n]);
      TurnMakes(sum, Play(sum, turns[..n]), turns[n]);
      hide Play, PlayTurn, IsMadeIn, Turn.IsFresh;
      var before, after := Play(sum, turns[..n]).written, Play(sum, turns).written;
      forall k | 0 <= k < |turns| ensures IsMadeIn(sum, after[k], turns[k]) {
        if k < n {
          assert after[..n][k] == before[k] && turns[..n][k] == turns[k];
        }
      }
    }
  }

  // So two stores that stored as many blocks and stand on the same previous hash have the same
  // contents, or expose a collision.
  lemma RunsBind(sum: Hasher, turns: seq<Turn>, turns': seq<Turn>) returns (p: Bytes, q: Bytes)
    requires IsDigest(sum) && |turns| == |turns'| && (forall t <- turns :: t.IsFresh()) && (forall t <- turns' :: t.IsFresh())
    requires Play(sum, turns).preBlkHash == Play(sum, turns').preBlkHash
    ensures Collides(sum, p, q)
      || (|Play(sum, turns).written| == |Play(sum, turns').written| == |turns|
          && forall i :: 0 <= i < |turns| ==> SameContents(Play(sum, turns).written[i], Play(sum, turns').written[i]))
  {
    StoredBlocksFormChain(sum, turns);
    StoredBlocksFormChain(sum, turns');
    StoredBlocksAreMade(sum, turns);
    StoredBlocksAreMade(sum, turns');
    hide Play, IsChain, Tip, SameContents, Block.Hash;
    MadeHasDigests(sum, Play(sum, turns).written);
    MadeHasDigests(sum, Play(sum, turns').written);
    p, q := ChainsBind(sum, Play(sum, turns).written, Play(sum, turns').written);
  }

  lemma MadeHasDigests(sum: Hasher, blks: seq<Block>)
    requires IsDigest(sum) && forall k :: 0 <= k < |blks| ==> IsMade(sum, blks[k]) && |blks[k].blkHdr.preBlkHash| == DIGEST_LENGTH
    ensures forall k :: 0 <= k < |blks| ==> HasDigests(blks[k])
  {
    forall k | 0 <= k < |blks| ensures HasDigests(blks[k]) {
      Merkle.RecursiveRootLength(sum, blks[k].blkData.trans);
    }
  }

  /* The files */

  // A block is written to the file of its height, over what was there.
  function Disk(written: seq<Block>): map<int, Block> {
    if written == [] then map[]
    else
      var last := written[|written| - 1];
      Disk(written[..|written| - 1])[last.blkHdr.height := last]
  }

  ghost predicate HasFiles(disk: map<int, Block>, n: nat) {
    forall k {:trigger k in disk} :: k in disk <==> 0 <= k < n
  }

  ghost function Files(disk: map<int, Block>, n: nat): seq<Block>
    requires HasFiles(disk, n)
  {
    seq(n, k requires 0 <= k < n => disk[k])
  }

  ghost predicate InOrder(written: seq<Block>) {
    forall i :: 0 <= i < |written| ==> written[i].blkHdr.height == i
  }

  // Writes in order of height overwrite nothing.
  lemma {:induction false} DiskOfOrdered(written: seq<Block>)
    requires InOrder(written)
    ensures HasFiles(Disk(written), |written|) && Files(Disk(written), |written|) == written
  {
    if written != [] {
      var n := |written| - 1;
      DiskOfOrdered(written[..n]);
      forall k | 0 <= k < n ensures k in Disk(written[..n]) && Disk(written[..n])[k] == written[k] {
        assert Files(Disk(written[..n]), n)[k] == written[k];
      }
    }
  }

  lemma {:induction false} OnDiskWasWritten(written: seq<Block>, k: int)
    requires k in Disk(written)
    ensures exists i :: 0 <= i < |written| && written[i].blkHdr.height == k
  {
    var n := |written| - 1;
    if written[n].blkHdr.height != k {
      OnDiskWasWritten(written[..n], k);
      var i :| 0 <= i < n && written[..n][i].blkHdr.height == k;
      assert written[i].blkHdr.height == k;
    }
  }

  // As many files as writes: then nothing was overwritten, and the writes were in order.
  lemma {:induction false} FullDiskIsOrdered(written: seq<Block>)
    requires forall i :: 0 <= i < |written| ==> 0 <= written[i].blkHdr.height <= i
    requires forall k :: 0 <= k < |written| ==> k in Disk(written)
    ensures InOrder(written)
  {
    if written != [] {
      var n := |written| - 1;
      OnDiskWasWritten(written, n);
      forall k | 0 <= k < n ensures k in Disk(written[..n]) {
        assert k in Disk(written);
      }
      FullDiskIsOrdered(written[..n]);
      forall i | 0 <= i < n ensures written[i].blkHdr.height == i {
        assert written[..n][i] == written[i];
      }
    }
  }

  // Files and writes hold a chain together, when no block has a height above its place.
  lemma FilesAreWrites(sum: Hasher, written: seq<Block>)
    requires forall i :: 0 <= i < |written| ==> 0 <= written[i].blkHdr.height <= i
    ensures HasFiles(Disk(written), |written|) && IsChain(sum, Files(Disk(written), |written|)) <==> IsChain(sum, written)
  {
    hide Block.Hash, Disk;
    if HasFiles(Disk(written), |written|) {
      FullDiskIsOrdered(written);
    }
    if InOrder(written) {
      DiskOfOrdered(written);
    }
  }

  // A run leaves files 0 to n-1 for its n turns, with a hash chain in them, exactly when every
  // turn stores a block that it generated last. A turn that does not writes over an earlier
  // file, or breaks the chain with an empty first block.
  lemma FilesFormChain(sum: Hasher, turns: seq<Turn>)
    requires IsDigest(sum)
    ensures var disk := Disk(Play(sum, turns).written);
      HasFiles(disk, |turns|) && IsChain(sum, Files(disk, |turns|)) <==> forall t <- turns :: t.IsFresh()
  {
    RunCounts(sum, turns);
    hide IsChain, Disk, HasFiles, Files, Play;
    StoredBlocksFormChain(sum, turns);
    FilesAreWrites(sum, Play(sum, turns).written);
  }

  /** The store itself. Disk writes succeed; the time stamp of a block is a parameter. */
  class BlockStore {
    var height: int
    var generatedHeight: int
    var preBlkHash: Bytes
    var curBlkHash: Bytes
    var curProposalBlk: Block
    var written: seq<Block>

    ghost function State(): Store
      reads this
    {
      Store(height, generatedHeight, preBlkHash, curBlkHash, curProposalBlk, written)
    }

    constructor (sum: Hasher)
      ensures State() == NewStore(sum)
    {
      height, generatedHeight := 0, 0;
      preBlkHash, curBlkHash := Merkle.EmptyHash(sum), Merkle.EmptyHash(sum);
      curProposalBlk := EMPTY_BLOCK;
      written := [];
    }

    method GenNewBlock(sum: Hasher, viewNumber: int, commands: seq<Bytes>, heights: seq<int>, timeStamp: int)
      modifies this
      ensures heights == [] ==> State() == old(State()).GenNewBlock(sum, viewNumber, commands, timeStamp)
      ensures heights != [] ==> State() == old(State()).GenNewBlockAt(sum, viewNumber, commands, heights[0], timeStamp)
    {
      var newHeight := height;
      if |heights| > 0 {
        newHeight := heights[0];
        generatedHeight := generatedHeight + 1;
      }
      var root := Merkle.HashFromByteSlices(sum, commands);
      var data := BlockData(newHeight, root, commands);
      curProposalBlk := Block(BlockHeader(newHeight, viewNumber, timeStamp, preBlkHash, root, NoSign, []), data);
      curProposalBlk := curProposalBlk.(blkHdr := curProposalBlk.blkHdr.(blkDataHash := curProposalBlk.blkData.Hash(sum)));
      curBlkHash := curProposalBlk.Hash(sum);
    }

    method StoreBlock(blk: Block)
      modifies this
      ensures State() == old(State()).StoreBlock(blk)
    {
      written := written + [blk];
      height := height + 1;
      preBlkHash := curBlkHash;
      curBlkHash := [];
    }

    method GenEmptyBlock(sum: Hasher)
      modifies this
      ensures State() == old(State()).GenEmptyBlock(sum)
    {
      curProposalBlk := EMPTY_BLOCK;
      curBlkHash := Merkle.EmptyHash(sum);
    }
  }
}
