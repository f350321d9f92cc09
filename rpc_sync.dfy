/**
 * RPC mode of the blocks worker as a specification over values: one tick
 * takes in the single next block and then re-checks the trailing window of
 * heights against the two caches.
 */
module RpcSync {
  import opened Wrappers
  import opened Models
  import opened Caching
  import opened SyncTip

  /** The two caches as values: block summaries and full blocks, by height. */
  datatype Caches = Caches(simplified: map<int, Block>, full: map<int, CacheEntry>)

  datatype RpcState = RpcState(caches: Caches, tip: TipState)

  /**
   * What fails during one tick. The full-cache write and the blocks-channel
   * send run together and their exceptions are swallowed. In the window, at
   * a height of recheckThrows GetBlockHash, ValidateCacheAsync or GetBlock
   * throws before anything is written; at a height of updateThrows
   * UpdateCachedDataAsync throws after the summary is written. Either
   * exception ends the window.
   */
  datatype RpcFaults = RpcFaults(cacheSetFails: bool, hubSendFails: bool, recheckThrows: set<int>, updateThrows: set<int>)

  /** The caches after (part of) the window, and whether an exception ended it. */
  datatype RecheckOutcome = RecheckOutcome(caches: Caches, aborted: bool)

  /** ValidateCacheAsync over the full-block cache. */
  function Validate(full: map<int, CacheEntry>, height: int, hash: Hash): (valid: bool)
    ensures valid <==> height in full && full[height].hash == hash
  {
    height in full && full[height].hash == hash
  }

  /**
   * One height of the window, as written: the block is fetched again and
   * both caches overwritten when ValidateCacheAsync answers true. A null
   * answer skips the height; an exception ends the window.
   */
  function RecheckAt(c: Caches, up: Upstream, f: RpcFaults, k: int): RecheckOutcome
  {
    if k in f.recheckThrows then RecheckOutcome(c, true)
    else
      match HashAt(up, k)
      case None => RecheckOutcome(c, false)
      case Some(h) =>
        if !Validate(c.full, k, h) then RecheckOutcome(c, false)
        else
          match BlockFor(up, h)
          case None => RecheckOutcome(c, false)
          case Some(b) =>
            var simplified := c.simplified[b.height := b];
            if k in f.updateThrows then RecheckOutcome(Caches(simplified, c.full), true)
            else RecheckOutcome(Caches(simplified, c.full[k := CacheEntry(h, b)]), false)
  }

  /** The heights lo .. hi - 1 in ascending order; an exception ends the pass. */
  function Recheck(c: Caches, up: Upstream, f: RpcFaults, lo: int, hi: int): RecheckOutcome
    decreases hi - lo
  {
    if hi <= lo then RecheckOutcome(c, false)
    else
      var prev := Recheck(c, up, f, lo, hi - 1);
      if prev.aborted then prev else RecheckAt(prev.caches, up, f, hi - 1)
  }

  /** RPCModeIteration as a function of the state before it. */
  function RpcIteration(s: RpcState, up: Upstream, f: RpcFaults, window: int): RpcState
  {
    match HashAt(up, s.tip.currentSynced + 1)
    case None => s
    case Some(h) =>
      match BlockFor(up, h)
      case None => s
      case Some(b) =>
        var simplified := s.caches.simplified[b.height := b];
        var full := if f.cacheSetFails then s.caches.full else s.caches.full[b.height := CacheEntry(b.hash, b)];
        var tip := OnNewBlock(s.tip, b, f.hubSendFails).(rpcLatest := b.height);
        RpcState(Recheck(Caches(simplified, full), up, f, b.height - window, b.height + 1).caches, tip)
  }

  // ---------------------------------------------------------------------
  // Properties
  // ---------------------------------------------------------------------

  /** A tick asks for the height after the synced one; with no hash or block for it, nothing changes. */
  lemma RpcIterationMissingIsNoop(s: RpcState, up: Upstream, f: RpcFaults, window: int)
    requires var next := HashAt(up, s.tip.currentSynced + 1);
             next.None? || next.value !in up.blocks
    ensures RpcIteration(s, up, f, window) == s
  {
  }

  /** Independent reference: whether the window re-fetches height k, judged on the cache before the pass. */
  predicate Refetched(full: map<int, CacheEntry>, up: Upstream, k: int)
  {
    HashAt(up, k).Some? && Validate(full, k, HashAt(up, k).value) && HashAt(up, k).value in up.blocks
  }

  /** The node's block and cache entry for height k. */
  function NodeBlock(up: Upstream, k: int): Block
    requires HashAt(up, k).Some? && HashAt(up, k).value in up.blocks
  {
    up.blocks[HashAt(up, k).value]
  }

  function NodeEntry(up: Upstream, k: int): CacheEntry
    requires HashAt(up, k).Some? && HashAt(up, k).value in up.blocks
  {
    CacheEntry(HashAt(up, k).value, NodeBlock(up, k))
  }

  /** Height j throws: before any write, or in UpdateCachedDataAsync once the re-fetch gets there. */
  predicate ThrowsAt(full: map<int, CacheEntry>, up: Upstream, f: RpcFaults, j: int)
  {
    j in f.recheckThrows || (j in f.updateThrows && Refetched(full, up, j))
  }

  /** No height from lo to k - 1 throws, so the pass gets to height k. */
  predicate Reaches(full: map<int, CacheEntry>, up: Upstream, f: RpcFaults, lo: int, k: int)
  {
    forall j | lo <= j < k :: !ThrowsAt(full, up, f, j)
  }

  /** The pass over lo .. hi - 1 writes the node's summary for height k. */
  predicate SummaryWritten(full: map<int, CacheEntry>, up: Upstream, f: RpcFaults, lo: int, hi: int, k: int)
  {
    lo <= k < hi && Reaches(full, up, f, lo, k) && k !in f.recheckThrows && Refetched(full, up, k)
  }

  /** ... and the node's full-cache entry for height k. */
  predicate EntryWritten(full: map<int, CacheEntry>, up: Upstream, f: RpcFaults, lo: int, hi: int, k: int)
  {
    SummaryWritten(full, up, f, lo, hi, k) && k !in f.updateThrows
  }

  /**
   * The window pass ends early exactly when some height of it throws. It
   * keeps the set of cached heights, and overwrites the full-cache entry of
   * exactly the heights it re-fetches before any exception, with the node's
   * hash and block.
   */
  lemma {:induction false} RecheckMatchesReference(c: Caches, up: Upstream, f: RpcFaults, lo: int, hi: int)
    ensures var r := Recheck(c, up, f, lo, hi);
            && (r.aborted <==> !Reaches(c.full, up, f, lo, hi))
            && r.caches.full.Keys == c.full.Keys
            && forall k | k in c.full ::
                 r.caches.full[k] == if EntryWritten(c.full, up, f, lo, hi, k) then NodeEntry(up, k) else c.full[k]
    decreases hi - lo
  {
    if hi > lo {
      RecheckMatchesReference(c, up, f, lo, hi - 1);
      var prev := Recheck(c, up, f, lo, hi - 1);
      var k := hi - 1;
      if !prev.aborted {
        assert k in prev.caches.full ==> prev.caches.full[k] == c.full[k];
        assert Refetched(prev.caches.full, up, k) == Refetched(c.full, up, k);
        assert Reaches(c.full, up, f, lo, hi) <==> !ThrowsAt(c.full, up, f, k);
      } else {
        assert !Reaches(c.full, up, f, lo, hi);
      }
    }
  }

  /**
   * The summaries: the pass adds or overwrites the summary of exactly the
   * heights it re-fetches before any exception (also when the full-cache
   * update then throws), with the node's block, and keeps every other one.
   */
  lemma {:induction false} RecheckSummariesMatchReference(c: Caches, up: Upstream, f: RpcFaults, lo: int, hi: int)
    requires UpstreamConsistent(up)
    ensures var r := Recheck(c, up, f, lo, hi).caches;
            && (forall m :: m in r.simplified <==> m in c.simplified || SummaryWritten(c.full, up, f, lo, hi, m))
            && forall m | m in r.simplified ::
                 r.simplified[m] == if SummaryWritten(c.full, up, f, lo, hi, m) then NodeBlock(up, m) else c.simplified[m]
    decreases hi - lo
  {
    if hi > lo {
      RecheckSummariesMatchReference(c, up, f, lo, hi - 1);
      RecheckMatchesReference(c, up, f, lo, hi - 1);
      var prev := Recheck(c, up, f, lo, hi - 1);
      var k := hi - 1;
      if !prev.aborted {
        assert k in prev.caches.full ==> prev.caches.full[k] == c.full[k];
        assert Refetched(prev.caches.full, up, k) == Refetched(c.full, up, k);
        if Refetched(c.full, up, k) {
          assert NodeBlock(up, k).height == k;
        }
      }
    }
  }

  /** The window pass ends early exactly when some height of it throws. */
  lemma RecheckAbortsIff(c: Caches, up: Upstream, f: RpcFaults, lo: int, hi: int)
    ensures Recheck(c, up, f, lo, hi).aborted <==> exists j :: lo <= j < hi && ThrowsAt(c.full, up, f, j)
  {
    RecheckMatchesReference(c, up, f, lo, hi);
  }

  /** An exception ends the window pass: the later heights are not looked at. */
  lemma {:induction false} RecheckAbortIsFinal(c: Caches, up: Upstream, f: RpcFaults, lo: int, mid: int, hi: int)
    requires lo <= mid <= hi
    requires Recheck(c, up, f, lo, mid).aborted
    ensures Recheck(c, up, f, lo, hi) == Recheck(c, up, f, lo, mid)
    decreases hi - mid
  {
    if hi > mid {
      RecheckAbortIsFinal(c, up, f, lo, mid, hi - 1);
    }
  }

  /**
   * Two full caches that differ at most at height top: below top, the pass
   * over lo .. top on one writes what the pass over lo .. top - 1 writes on
   * the other.
   */
  lemma WindowBelowTop(full1: map<int, CacheEntry>, full2: map<int, CacheEntry>, up: Upstream, f: RpcFaults, lo: int, top: int)
    requires forall j | j != top :: (j in full1 <==> j in full2) && (j in full1 ==> full1[j] == full2[j])
    ensures forall k | k != top :: SummaryWritten(full1, up, f, lo, top + 1, k) == SummaryWritten(full2, up, f, lo, top, k)
    ensures forall k | k != top :: EntryWritten(full1, up, f, lo, top + 1, k) == EntryWritten(full2, up, f, lo, top, k)
  {
    assert forall j | j != top :: ThrowsAt(full1, up, f, j) == ThrowsAt(full2, up, f, j);
    forall k | k != top
      ensures SummaryWritten(full1, up, f, lo, top + 1, k) == SummaryWritten(full2, up, f, lo, top, k)
    {
      if lo <= k < top {
        assert Reaches(full1, up, f, lo, k) == Reaches(full2, up, f, lo, k);
      }
    }
  }

  /**
   * A tick that finds the next block h: h becomes the synced and the last
   * notified height, a notice goes out and the flag is raised exactly when
   * h differs from the last notified height and the send succeeds, both
   * caches hold block h, and the window h - window .. h - 1 below it is
   * re-checked against the caches as they were before the tick.
   */
  lemma RpcIterationTakesIn(s: RpcState, up: Upstream, f: RpcFaults, window: int)
    requires UpstreamConsistent(up)
    requires var next := HashAt(up, s.tip.currentSynced + 1);
             next.Some? && next.value in up.blocks
    ensures var h := s.tip.currentSynced + 1;
            var b := NodeBlock(up, h);
            var sent := h != s.tip.rpcLatest && !f.hubSendFails;
            var r := RpcIteration(s, up, f, window);
            var lo := h - window;
            && b.height == h
            && r.tip.currentSynced == h && r.tip.rpcLatest == h
            && r.tip.notices == s.tip.notices + (if sent then [Notice(b, b.nTx)] else [])
            && r.tip.shouldBroadcast == (sent || s.tip.shouldBroadcast)
            && h in r.caches.simplified && r.caches.simplified[h] == b
            && r.caches.full.Keys == s.caches.full.Keys + (if f.cacheSetFails then {} else {h})
            && (!f.cacheSetFails ==> r.caches.full[h].block == b)
            && (forall k | k in s.caches.full && k != h ::
                  r.caches.full[k] == if EntryWritten(s.caches.full, up, f, lo, h, k) then NodeEntry(up, k) else s.caches.full[k])
            && (forall m | m != h ::
                  m in r.caches.simplified <==> m in s.caches.simplified || SummaryWritten(s.caches.full, up, f, lo, h, m))
            && (forall m | m in r.caches.simplified && m != h ::
                  r.caches.simplified[m] == if SummaryWritten(s.caches.full, up, f, lo, h, m) then NodeBlock(up, m) else s.caches.simplified[m])
  {
    var h := s.tip.currentSynced + 1;
    var b := NodeBlock(up, h);
    assert b.height == h;
    OnNewBlockNotifiesIff(s.tip, b, f.hubSendFails);
    var full := if f.cacheSetFails then s.caches.full else s.caches.full[h := CacheEntry(b.hash, b)];
    var base := Caches(s.caches.simplified[h := b], full);
    var lo := h - window;
    assert RpcIteration(s, up, f, window).caches == Recheck(base, up, f, lo, h + 1).caches;
    RecheckMatchesReference(base, up, f, lo, h + 1);
    RecheckSummariesMatchReference(base, up, f, lo, h + 1);
    WindowBelowTop(full, s.caches.full, up, f, lo, h);
  }

  // ---------------------------------------------------------------------
  // The re-fetch condition
  // ---------------------------------------------------------------------

  /** A tick in which nothing fails. */
  const Unfailing := RpcFaults(false, false, {}, {})

  /**
   * As written, the window pass never repairs a mismatch: an entry whose
   * hash differs from the node's hash at its height is left as it was,
   * whatever fails during the pass.
   */
  lemma AsWrittenKeepsStaleEntry(c: Caches, up: Upstream, f: RpcFaults, lo: int, hi: int, k: int)
    requires k in c.full && HashAt(up, k).Some? && c.full[k].hash != HashAt(up, k).value
    ensures k in Recheck(c, up, f, lo, hi).caches.full
    ensures Recheck(c, up, f, lo, hi).caches.full[k] == c.full[k]
    ensures !Validate(Recheck(c, up, f, lo, hi).caches.full, k, HashAt(up, k).value)
  {
    RecheckMatchesReference(c, up, f, lo, hi);
  }

  /**
   * The reorganisation example: the cache holds hash "aaa" at height 50,
   * the node now reports "bbb" there. After the window pass over 45 .. 50
   * the cache still holds "aaa".
   */
  lemma AsWrittenReorgExample(blockA: Block, blockB: Block)
    ensures var up := Upstream(map[50 := "bbb"], map["bbb" := blockB]);
            var c := Caches(map[50 := blockA], map[50 := CacheEntry("aaa", blockA)]);
            Recheck(c, up, Unfailing, 45, 51).caches.full[50].hash == "aaa"
  {
    var up := Upstream(map[50 := "bbb"], map["bbb" := blockB]);
    var c := Caches(map[50 := blockA], map[50 := CacheEntry("aaa", blockA)]);
    AsWrittenKeepsStaleEntry(c, up, Unfailing, 45, 51, 50);
  }

  /** The evidently intended rule: re-fetch when ValidateCacheAsync answers false. */
  function RecheckAtCorrected(c: Caches, up: Upstream, f: RpcFaults, k: int): RecheckOutcome
  {
    if k in f.recheckThrows then RecheckOutcome(c, true)
    else
      match HashAt(up, k)
      case None => RecheckOutcome(c, false)
      case Some(h) =>
        if Validate(c.full, k, h) then RecheckOutcome(c, false)
        else
          match BlockFor(up, h)
          case None => RecheckOutcome(c, false)
          case Some(b) =>
            var simplified := c.simplified[b.height := b];
            if k in f.updateThrows then RecheckOutcome(Caches(simplified, c.full), true)
            else RecheckOutcome(Caches(simplified, c.full[k := CacheEntry(h, b)]), false)
  }

  function RecheckCorrected(c: Caches, up: Upstream, f: RpcFaults, lo: int, hi: int): RecheckOutcome
    decreases hi - lo
  {
    if hi <= lo then RecheckOutcome(c, false)
    else
      var prev := RecheckCorrected(c, up, f, lo, hi - 1);
      if prev.aborted then prev else RecheckAtCorrected(prev.caches, up, f, hi - 1)
  }

  /**
   * Reorg repair with the corrected rule: a pass that no exception ends
   * leaves every height of the window that the node knows, with its block
   * available, validating against the node's hash; only an exception at a
   * height of the window ends it; entries outside the window are untouched.
   */
  lemma {:induction false} CorrectedRecheckRepairs(c: Caches, up: Upstream, f: RpcFaults, lo: int, hi: int)
    ensures var r := RecheckCorrected(c, up, f, lo, hi);
            && (!r.aborted ==>
                  forall k | lo <= k < hi && HashAt(up, k).Some? && HashAt(up, k).value in up.blocks ::
                    Validate(r.caches.full, k, HashAt(up, k).value))
            && (r.aborted ==> exists j :: lo <= j < hi && (j in f.recheckThrows || j in f.updateThrows))
            && (forall k | k in c.full && !(lo <= k < hi) :: k in r.caches.full && r.caches.full[k] == c.full[k])
    decreases hi - lo
  {
    if hi > lo {
      CorrectedRecheckRepairs(c, up, f, lo, hi - 1);
    }
  }

  /** The reorganisation example with the corrected rule: the cache holds "bbb" and block B. */
  lemma CorrectedReorgExample(blockA: Block, blockB: Block)
    ensures var up := Upstream(map[50 := "bbb"], map["bbb" := blockB]);
            var c := Caches(map[50 := blockA], map[50 := CacheEntry("aaa", blockA)]);
            RecheckCorrected(c, up, Unfailing, 45, 51).caches.full[50] == CacheEntry("bbb", blockB)
  {
    var up := Upstream(map[50 := "bbb"], map["bbb" := blockB]);
    var c := Caches(map[50 := blockA], map[50 := CacheEntry("aaa", blockA)]);
    CorrectedRecheckRepairs(c, up, Unfailing, 45, 51);
  }
}
