/** Why the truncated, merged list of packets is as good as the full history. */
module PackListHistory {
  import opened PackLists

  /** One call on a packet list: a packet arrives, or the recent sum is read. */
  datatype Op = Packet(p: Entry) | Query(now: int)

  function Time(op: Op): int {
    match op
    case Packet(p) => p.sec
    case Query(now) => now
  }

  predicate Monotone(ops: seq<Op>) {
    forall i, j :: 0 <= i < j < |ops| ==> Time(ops[i]) <= Time(ops[j])
  }

  /** The list after the calls. */
  function ListAfter(ops: seq<Op>): seq<Entry> {
    if ops == [] then []
    else
      var before := ListAfter(ops[..|ops| - 1]);
      match ops[|ops| - 1]
      case Packet(p) => Added(before, p)
      case Query(now) => Recent(before, now - PERIOD)
  }

  /** Every packet of the calls, newest first. */
  function History(ops: seq<Op>): seq<Entry> {
    if ops == [] then []
    else
      var before := History(ops[..|ops| - 1]);
      match ops[|ops| - 1]
      case Packet(p) => [p] + before
      case Query(_) => before
  }

  predicate Descending(es: seq<Entry>) {
    forall i, j :: 0 <= i < j < |es| ==> es[i].sec > es[j].sec
  }

  /** The list stands for the history as far as any window after the cutoff can see. */
  ghost predicate StandsFor(es: seq<Entry>, hist: seq<Entry>, cutoff: int) {
    forall c :: c >= cutoff ==> Wrap(SumSince(es, c)) == Wrap(SumSince(hist, c))
  }

  lemma {:induction false} NothingSince(es: seq<Entry>, cutoff: int)
    requires forall i :: 0 <= i < |es| ==> es[i].sec <= cutoff
    ensures SumSince(es, cutoff) == 0
  {
    if es != [] {
      NothingSince(es[1..], cutoff);
    }
  }

  /** Cutting a descending list at the cutoff loses nothing a later window can see. */
  lemma {:induction false} RecentKeepsSum(es: seq<Entry>, cutoff: int, c: int)
    requires Descending(es) && c >= cutoff
    ensures SumSince(Recent(es, cutoff), c) == SumSince(es, c)
  {
    if Cut(es, cutoff) == 0 {
      assert forall i :: 0 <= i < |es| ==> es[i].sec <= cutoff;
      NothingSince(es, c);
    } else {
      RecentKeepsSum(es[1..], cutoff, c);
      assert Recent(es, cutoff) == [es[0]] + Recent(es[1..], cutoff);
    }
  }

  lemma {:induction false} AllRecent(es: seq<Entry>, cutoff: int)
    requires forall i :: 0 <= i < |es| ==> es[i].sec > cutoff
    ensures SumSince(es, cutoff) == Total(es)
  {
    if es != [] {
      AllRecent(es[1..], cutoff);
    }
  }

  /** What the list returns is the sum over its own entries in the window. */
  lemma RecentSumIsSumSince(es: seq<Entry>, cutoff: int)
    requires Descending(es)
    ensures RecentSum(es, cutoff) == Wrap(SumSince(es, cutoff))
  {
    RecentKeepsSum(es, cutoff, cutoff);
    AllRecent(Recent(es, cutoff), cutoff);
  }

  lemma AddedSum(es: seq<Entry>, p: Entry, c: int)
    ensures Wrap(SumSince(Added(es, p), c)) == Wrap(SumSince(es, c) + if p.sec > c then p.len else 0)
  {
    if es != [] && es[0].sec == p.sec {
      var rest := SumSince(es[1..], c);
      assert Added(es, p)[1..] == es[1..];
      if p.sec > c {
        WrapWrap(es[0].len + p.len, rest);
      }
    } else if es != [] {
      assert Added(es, p)[1..] == es;
    }
  }

  lemma AddedStandsFor(es: seq<Entry>, hist: seq<Entry>, cutoff: int, p: Entry)
    requires StandsFor(es, hist, cutoff)
    ensures StandsFor(Added(es, p), [p] + hist, cutoff)
  {
    forall c | c >= cutoff
      ensures Wrap(SumSince(Added(es, p), c)) == Wrap(SumSince([p] + hist, c))
    {
      AddedSum(es, p, c);
      assert ([p] + hist)[1..] == hist;
      var more := if p.sec > c then p.len else 0;
      WrapWrap(SumSince(es, c), more);
      WrapWrap(SumSince(hist, c), more);
    }
  }

  lemma RecentStandsFor(es: seq<Entry>, hist: seq<Entry>, cutoff: int, later: int)
    requires StandsFor(es, hist, cutoff) && Descending(es) && later >= cutoff
    ensures StandsFor(Recent(es, later), hist, later)
  {
    forall c | c >= later
      ensures Wrap(SumSince(Recent(es, later), c)) == Wrap(SumSince(hist, c))
    {
      RecentKeepsSum(es, later, c);
    }
  }

  /** A packet no older than the newest entry keeps the list strictly descending. */
  lemma AddedDescends(es: seq<Entry>, p: Entry)
    requires Descending(es) && (es != [] ==> es[0].sec <= p.sec)
    ensures Descending(Added(es, p)) && Added(es, p)[0].sec == p.sec
  {
  }

  /** The list is in order, and stands for the history as far as a window that ends now or later can see. */
  ghost predicate Faithful(es: seq<Entry>, hist: seq<Entry>, now: int) {
    Descending(es) && (es != [] ==> es[0].sec <= now) && StandsFor(es, hist, now - PERIOD)
  }

  lemma FaithfulLater(es: seq<Entry>, hist: seq<Entry>, now: int, later: int)
    requires Faithful(es, hist, now) && now <= later
    ensures Faithful(es, hist, later)
  {
  }

  lemma FaithfulAdded(es: seq<Entry>, hist: seq<Entry>, now: int, p: Entry)
    requires Faithful(es, hist, now) && now <= p.sec
    ensures Faithful(Added(es, p), [p] + hist, p.sec)
  {
    FaithfulLater(es, hist, now, p.sec);
    AddedStandsFor(es, hist, p.sec - PERIOD, p);
    AddedDescends(es, p);
  }

  lemma FaithfulTrimmed(es: seq<Entry>, hist: seq<Entry>, now: int)
    requires Faithful(es, hist, now)
    ensures Faithful(Recent(es, now - PERIOD), hist, now)
  {
    RecentStandsFor(es, hist, now - PERIOD, now - PERIOD);
  }

  lemma NextFaithful(es: seq<Entry>, hist: seq<Entry>, now: int, op: Op, es': seq<Entry>, hist': seq<Entry>)
    requires Faithful(es, hist, now) && now <= Time(op)
    requires op.Packet? ==> es' == Added(es, op.p) && hist' == [op.p] + hist
    requires op.Query? ==> es' == Recent(es, op.now - PERIOD) && hist' == hist
    ensures Faithful(es', hist', Time(op))
  {
    if op.Packet? {
      FaithfulAdded(es, hist, now, op.p);
    } else {
      FaithfulLater(es, hist, now, op.now);
      FaithfulTrimmed(es, hist, op.now);
    }
  }

  /** The state of the list after any run whose times never go back. */
  lemma {:induction false} RunInvariant(ops: seq<Op>, now: int)
    requires Monotone(ops) && (ops != [] ==> Time(ops[|ops| - 1]) <= now)
    ensures Faithful(ListAfter(ops), History(ops), now)
  {
    if ops != [] {
      var front, last := ops[..|ops| - 1], ops[|ops| - 1];
      RunInvariant(front, Time(last));
      NextFaithful(ListAfter(front), History(front), Time(last), last, ListAfter(ops), History(ops));
      FaithfulLater(ListAfter(ops), History(ops), Time(last), now);
    }
  }

  /** Whatever was merged or deleted before, the sum returned at `now` is the sum, in 32-bit
      arithmetic, of all packets ever added in the last PERIOD seconds. */
  lemma RecentSumIsExact(ops: seq<Op>, now: int)
    requires Monotone(ops) && (ops != [] ==> Time(ops[|ops| - 1]) <= now)
    ensures RecentSum(ListAfter(ops), now - PERIOD) == Wrap(SumSince(History(ops), now - PERIOD))
    ensures Descending(ListAfter(ops))
  {
    RunInvariant(ops, now);
    RecentSumIsSumSince(ListAfter(ops), now - PERIOD);
  }

  // ---------------------------------------------------------------- times in any order

  lemma {:induction false} SumSplits(es: seq<Entry>, i: nat, c: int)
    requires i <= |es|
    ensures SumSince(es, c) == SumSince(es[..i], c) + SumSince(es[i..], c)
  {
    if i == 0 {
      assert es[..0] == [] && es[0..] == es;
    } else {
      SumSplits(es[1..], i - 1, c);
      assert es[..i][1..] == es[1..][..i - 1] && es[i..] == es[1..][i - 1..];
    }
  }

  /** What lies behind the first old entry, where a sum does not look and what it cuts off. */
  function Hidden(es: seq<Entry>, cutoff: int): seq<Entry> {
    es[Cut(es, cutoff)..]
  }

  lemma WrapGap(a: int, b: int)
    ensures Wrap(a) == Wrap(a + b) <==> Wrap(b) == 0
  {
  }

  /** The sum read from any list is that of its recent entries exactly if the hidden ones add nothing. */
  lemma RecentSumIff(es: seq<Entry>, cutoff: int)
    ensures RecentSum(es, cutoff) == Wrap(SumSince(es, cutoff)) <==> Wrap(SumSince(Hidden(es, cutoff), cutoff)) == 0
  {
    RecentAndHidden(es, cutoff);
    WrapGap(Total(Recent(es, cutoff)), SumSince(Hidden(es, cutoff), cutoff));
  }

  /** All entries that the sums read so far have cut off. */
  function CutOff(ops: seq<Op>): seq<Entry> {
    if ops == [] then []
    else
      var front := ops[..|ops| - 1];
      match ops[|ops| - 1]
      case Packet(_) => CutOff(front)
      case Query(now) => Hidden(ListAfter(front), now - PERIOD) + CutOff(front)
  }

  lemma JoinedSum(a: seq<Entry>, b: seq<Entry>, c: int)
    ensures SumSince(a + b, c) == SumSince(a, c) + SumSince(b, c)
  {
    SumSplits(a + b, |a|, c);
    assert (a + b)[..|a|] == a && (a + b)[|a|..] == b;
  }

  lemma WrapMore(a: int, b: int, more: int)
    requires Wrap(a) == Wrap(b)
    ensures Wrap(a + more) == Wrap(b + more)
  {
  }

  lemma PacketBalance(listed: int, cut: int, hist: int, listed': int, more: int)
    requires Wrap(listed + cut) == Wrap(hist) && Wrap(listed') == Wrap(listed + more)
    ensures Wrap(listed' + cut) == Wrap(hist + more)
  {
    WrapMore(listed', listed + more, cut);
    WrapMore(listed + cut, hist, more);
    assert listed + more + cut == listed + cut + more;
  }

  lemma HistorySum(hist: seq<Entry>, p: Entry, c: int)
    ensures SumSince([p] + hist, c) == SumSince(hist, c) + if p.sec > c then p.len else 0
  {
    assert ([p] + hist)[1..] == hist;
  }

  lemma CutBalance(es: seq<Entry>, cut: seq<Entry>, cutoff: int, c: int)
    ensures SumSince(Recent(es, cutoff), c) + SumSince(Hidden(es, cutoff) + cut, c) == SumSince(es, c) + SumSince(cut, c)
  {
    SumSplits(es, Cut(es, cutoff), c);
    JoinedSum(Hidden(es, cutoff), cut, c);
  }

  /** A list and what was cut off make up a history, as far as a window sees. */
  predicate Accounts(es: seq<Entry>, cut: seq<Entry>, hist: seq<Entry>, c: int) {
    Wrap(SumSince(es, c) + SumSince(cut, c)) == Wrap(SumSince(hist, c))
  }

  lemma PacketAccounts(es: seq<Entry>, cut: seq<Entry>, hist: seq<Entry>, p: Entry, c: int)
    requires Accounts(es, cut, hist, c)
    ensures Accounts(Added(es, p), cut, [p] + hist, c)
  {
    AddedSum(es, p, c);
    HistorySum(hist, p, c);
    PacketBalance(SumSince(es, c), SumSince(cut, c), SumSince(hist, c), SumSince(Added(es, p), c), if p.sec > c then p.len else 0);
  }

  lemma CutAccounts(es: seq<Entry>, cut: seq<Entry>, hist: seq<Entry>, cutoff: int, c: int)
    requires Accounts(es, cut, hist, c)
    ensures Accounts(Recent(es, cutoff), Hidden(es, cutoff) + cut, hist, c)
  {
    CutBalance(es, cut, cutoff, c);
  }

  /** In any run, what is listed and what was cut off make up the history, for every window. */
  lemma {:induction false} NothingElseIsLost(ops: seq<Op>, c: int)
    ensures Accounts(ListAfter(ops), CutOff(ops), History(ops), c)
  {
    if ops != [] {
      var front := ops[..|ops| - 1];
      NothingElseIsLost(front, c);
      match ops[|ops| - 1]
      case Packet(p) => PacketAccounts(ListAfter(front), CutOff(front), History(front), p, c);
      case Query(now) => CutAccounts(ListAfter(front), CutOff(front), History(front), now - PERIOD, c);
    }
  }

  /** The window of the recent entries is their total. */
  lemma RecentAndHidden(es: seq<Entry>, c: int)
    ensures SumSince(es, c) == Total(Recent(es, c)) + SumSince(Hidden(es, c), c)
  {
    SumSplits(es, Cut(es, c), c);
    AllRecent(Recent(es, c), c);
  }

  /** The sum read from the list is that of the whole history in the window. */
  predicate SumIsRight(es: seq<Entry>, hist: seq<Entry>, c: int) {
    RecentSum(es, c) == Wrap(SumSince(hist, c))
  }

  /** The hidden entries and those cut off before add nothing to the window, in 32-bit arithmetic. */
  predicate NothingIsMissing(es: seq<Entry>, cut: seq<Entry>, c: int) {
    Wrap(SumSince(Hidden(es, c), c) + SumSince(cut, c)) == 0
  }

  lemma AccountedSumIff(es: seq<Entry>, cut: seq<Entry>, hist: seq<Entry>, c: int)
    requires Accounts(es, cut, hist, c)
    ensures SumIsRight(es, hist, c) <==> NothingIsMissing(es, cut, c)
  {
    RecentAndHidden(es, c);
    WrapGap(Total(Recent(es, c)), SumSince(Hidden(es, c), c) + SumSince(cut, c));
  }

  /** Whatever the order of the times, the sum returned at `now` is that of all packets ever added in the
      last PERIOD seconds exactly if those of them that are hidden now or were cut off before add nothing. */
  lemma SumIsRightIff(ops: seq<Op>, now: int)
    ensures SumIsRight(ListAfter(ops), History(ops), now - PERIOD) <==> NothingIsMissing(ListAfter(ops), CutOff(ops), now - PERIOD)
  {
    NothingElseIsLost(ops, now - PERIOD);
    AccountedSumIff(ListAfter(ops), CutOff(ops), History(ops), now - PERIOD);
  }

  lemma {:induction false} NoBytesSince(es: seq<Entry>, c: int)
    ensures SumSince(es, c) == 0 <==> forall i :: 0 <= i < |es| && es[i].sec > c ==> es[i].len == 0
  {
    if es != [] {
      NoBytesSince(es[1..], c);
      assert es == [es[0]] + es[1..];
    }
  }

  lemma AddedAtMost(es: seq<Entry>, p: Entry, c: int)
    ensures SumSince(Added(es, p), c) <= SumSince(es, c) + if p.sec > c then p.len else 0
  {
    if es != [] && es[0].sec == p.sec {
      assert Added(es, p)[1..] == es[1..];
    } else {
      HistorySum(es, p, c);
    }
  }

  /** A list and what was cut off never hold more than the history. */
  lemma {:induction false} NothingIsInvented(ops: seq<Op>, c: int)
    ensures SumSince(ListAfter(ops), c) + SumSince(CutOff(ops), c) <= SumSince(History(ops), c)
  {
    if ops != [] {
      var front := ops[..|ops| - 1];
      NothingIsInvented(front, c);
      match ops[|ops| - 1]
      case Packet(p) =>
        AddedAtMost(ListAfter(front), p, c);
        HistorySum(History(front), p, c);
      case Query(now) =>
        CutBalance(ListAfter(front), CutOff(front), now - PERIOD, c);
    }
  }

  lemma SmallSum(n: nat)
    requires n < U32
    ensures Wrap(n) == 0 <==> n == 0
  {
  }

  lemma LostSum(es: seq<Entry>, cut: seq<Entry>, c: int)
    ensures SumSince(Hidden(es, c) + cut, c) == SumSince(Hidden(es, c), c) + SumSince(cut, c) <= SumSince(es, c) + SumSince(cut, c)
    ensures NothingIsMissing(es, cut, c) <==> Wrap(SumSince(Hidden(es, c) + cut, c)) == 0
  {
    JoinedSum(Hidden(es, c), cut, c);
    RecentAndHidden(es, c);
  }

  lemma SmallLoss(es: seq<Entry>, cut: seq<Entry>, c: int)
    requires SumSince(es, c) + SumSince(cut, c) < U32
    ensures var lost := Hidden(es, c) + cut;
            NothingIsMissing(es, cut, c) <==> forall i :: 0 <= i < |lost| && lost[i].sec > c ==> lost[i].len == 0
  {
    var lost := Hidden(es, c) + cut;
    LostSum(es, cut, c);
    SmallSum(SumSince(lost, c));
    NoBytesSince(lost, c);
  }

  /** While the packets of the window are shorter than 2^32 bytes together, the sum is right exactly if no
      packet of the window that has bytes is hidden or was cut off. */
  lemma SumIsRightIffNoneLost(ops: seq<Op>, now: int)
    requires SumSince(History(ops), now - PERIOD) < U32
    ensures var lost := Hidden(ListAfter(ops), now - PERIOD) + CutOff(ops);
            SumIsRight(ListAfter(ops), History(ops), now - PERIOD) <==>
            forall i :: 0 <= i < |lost| && lost[i].sec > now - PERIOD ==> lost[i].len == 0
  {
    SumIsRightIff(ops, now);
    NothingIsInvented(ops, now - PERIOD);
    SmallLoss(ListAfter(ops), CutOff(ops), now - PERIOD);
  }

  // ---------------------------------------------------------------- told from the times of the calls alone

  /** A later call read the sum when this packet was already old. */
  predicate FoundOld(ops: seq<Op>, k: nat) {
    k < |ops| && ops[k].Packet? && exists j :: k < j < |ops| && ops[j].Query? && Time(ops[k]) <= ops[j].now - PERIOD
  }

  /** The last packet that was found old is the one before call b, if b is not the first. */
  ghost predicate LastFoundOld(ops: seq<Op>, b: nat) {
    && b <= |ops| && (b > 0 ==> FoundOld(ops, b - 1))
    && forall k :: b <= k < |ops| ==> !FoundOld(ops, k)
  }

  /** Packets as a list merges them, the newest first. */
  function Merged(ps: seq<Entry>): seq<Entry> {
    if ps == [] then [] else Added(Merged(ps[1..]), ps[0])
  }

  lemma {:induction false} MergedFirst(ps: seq<Entry>)
    ensures (Merged(ps) == [] <==> ps == []) && (ps != [] ==> Merged(ps)[0].sec == ps[0].sec)
  {
    if ps != [] {
      MergedFirst(ps[1..]);
    }
  }

  lemma RecentCons(e: Entry, es: seq<Entry>, cutoff: int)
    ensures Recent([e] + es, cutoff) == if e.sec <= cutoff then [] else [e] + Recent(es, cutoff)
  {
    assert ([e] + es)[1..] == es;
  }

  lemma RecentAdded(es: seq<Entry>, p: Entry, cutoff: int)
    ensures Recent(Added(es, p), cutoff) == if p.sec <= cutoff then [] else Added(Recent(es, cutoff), p)
  {
    if es != [] {
      assert es == [es[0]] + es[1..];
      RecentCons(es[0], es[1..], cutoff);
      if es[0].sec == p.sec {
        var merged := Entry(p.sec, Wrap(es[0].len + p.len));
        assert Added(es, p) == [merged] + es[1..];
        RecentCons(merged, es[1..], cutoff);
      } else {
        RecentCons(p, es, cutoff);
      }
    } else {
      RecentCons(p, [], cutoff);
    }
  }

  /** Cutting the merged packets off is merging those that are not cut off. */
  lemma {:induction false} RecentMerged(ps: seq<Entry>, cutoff: int)
    ensures Recent(Merged(ps), cutoff) == Merged(Recent(ps, cutoff))
  {
    if ps != [] {
      assert ps == [ps[0]] + ps[1..];
      RecentMerged(ps[1..], cutoff);
      RecentAdded(Merged(ps[1..]), ps[0], cutoff);
      RecentCons(ps[0], ps[1..], cutoff);
      if ps[0].sec > cutoff {
        assert Recent(ps, cutoff)[1..] == Recent(ps[1..], cutoff);
      }
    }
  }

  lemma AddedTotal(es: seq<Entry>, p: Entry)
    ensures Wrap(Total(Added(es, p))) == Wrap(Total(es) + p.len)
  {
    if es != [] && es[0].sec == p.sec {
      assert Added(es, p)[1..] == es[1..];
      WrapWrap(es[0].len + p.len, Total(es[1..]));
    } else if es != [] {
      assert Added(es, p)[1..] == es;
    }
  }

  lemma {:induction false} MergedTotal(ps: seq<Entry>)
    ensures Wrap(Total(Merged(ps))) == Wrap(Total(ps))
  {
    if ps != [] {
      MergedTotal(ps[1..]);
      AddedTotal(Merged(ps[1..]), ps[0]);
      WrapMore(Total(Merged(ps[1..])), Total(ps[1..]), ps[0].len);
    }
  }

  lemma HistoryFrom(ops: seq<Op>, b: nat)
    requires b < |ops|
    ensures var front, last := ops[..|ops| - 1], ops[|ops| - 1];
            History(ops[b..]) == if last.Packet? then [last.p] + History(front[b..]) else History(front[b..])
  {
    assert ops[b..][..|ops[b..]| - 1] == ops[..|ops| - 1][b..] && ops[b..][|ops[b..]| - 1] == ops[|ops| - 1];
  }

  /** Of the calls from b on, the recent packets are those from c on, if the packet before c is old and none
      after it is. */
  lemma {:induction false} RecentHistory(ops: seq<Op>, b: nat, c: nat, cutoff: int)
    requires b <= c <= |ops| && (c > b ==> ops[c - 1].Packet? && ops[c - 1].p.sec <= cutoff)
    requires forall k :: c <= k < |ops| && ops[k].Packet? ==> ops[k].p.sec > cutoff
    ensures Recent(History(ops[b..]), cutoff) == History(ops[c..])
  {
    if b < |ops| {
      HistoryFrom(ops, b);
      var front, last := ops[..|ops| - 1], ops[|ops| - 1];
      if c == |ops| {
        if c > b {
          RecentCons(last.p, History(front[b..]), cutoff);
        }
        assert ops[c..] == [];
      } else {
        HistoryFrom(ops, c);
        RecentHistory(front, b, c, cutoff);
        if last.Packet? {
          RecentCons(last.p, History(front[b..]), cutoff);
        }
      }
    } else {
      assert ops[b..] == [];
    }
  }

  lemma FoundBefore(ops: seq<Op>, k: nat)
    requires k < |ops| - 1
    ensures var front, last := ops[..|ops| - 1], ops[|ops| - 1];
            FoundOld(ops, k) <==>
              FoundOld(front, k) || (ops[k].Packet? && last.Query? && ops[k].p.sec <= last.now - PERIOD)
  {
    var front := ops[..|ops| - 1];
    if FoundOld(front, k) {
      var j :| k < j < |front| && front[j].Query? && Time(front[k]) <= front[j].now - PERIOD;
      assert ops[j] == front[j];
    }
    if FoundOld(ops, k) {
      var j :| k < j < |ops| && ops[j].Query? && Time(ops[k]) <= ops[j].now - PERIOD;
      assert j < |front| ==> front[j] == ops[j];
    }
  }

  /** The last packet found old before the last call. */
  lemma {:induction false} HasLastFoundOld(ops: seq<Op>, n: nat) returns (b: nat)
    requires n <= |ops| && forall k :: n <= k < |ops| ==> !FoundOld(ops, k)
    ensures LastFoundOld(ops, b)
    decreases n
  {
    if n == 0 || FoundOld(ops, n - 1) {
      b := n;
    } else {
      b := HasLastFoundOld(ops, n - 1);
    }
  }

  lemma PacketMerges(ops: seq<Op>, b: nat)
    requires b < |ops| && ops[|ops| - 1].Packet?
    ensures Merged(History(ops[b..])) == Added(Merged(History(ops[..|ops| - 1][b..])), ops[|ops| - 1].p)
  {
    HistoryFrom(ops, b);
    assert History(ops[b..])[1..] == History(ops[..|ops| - 1][b..]);
  }

  lemma QueryCuts(ops: seq<Op>, a: nat, b: nat)
    requires a <= b < |ops| && ops[|ops| - 1].Query?
    requires var c := ops[|ops| - 1].now - PERIOD;
             && (b > a ==> ops[b - 1].Packet? && ops[b - 1].p.sec <= c)
             && forall k :: b <= k < |ops| - 1 && ops[k].Packet? ==> ops[k].p.sec > c
    ensures Recent(Merged(History(ops[..|ops| - 1][a..])), ops[|ops| - 1].now - PERIOD) == Merged(History(ops[b..]))
  {
    var front, c := ops[..|ops| - 1], ops[|ops| - 1].now - PERIOD;
    RecentMerged(History(front[a..]), c);
    RecentHistory(front, a, b, c);
    HistoryFrom(ops, b);
  }

  /** In any run, whatever the order of its times, the list has exactly the packets after the last one that was
      found old, merged. */
  lemma {:induction false} ListFromTimes(ops: seq<Op>, b: nat)
    requires LastFoundOld(ops, b)
    ensures ListAfter(ops) == Merged(History(ops[b..]))
  {
    if ops == [] {
      assert ops[b..] == [];
    } else {
      var front, last := ops[..|ops| - 1], ops[|ops| - 1];
      var a := HasLastFoundOld(front, |front|);
      ListFromTimes(front, a);
      LaterLast(ops, a, b);
      if last.Packet? {
        PacketMerges(ops, b);
      } else {
        QueryCuts(ops, a, b);
      }
    }
  }

  /** How the last packet found old moves with one more call. */
  lemma LaterLast(ops: seq<Op>, a: nat, b: nat)
    requires ops != [] && LastFoundOld(ops[..|ops| - 1], a) && LastFoundOld(ops, b)
    ensures a <= b < |ops| && (ops[|ops| - 1].Packet? ==> a == b)
    ensures ops[|ops| - 1].Query? ==>
              var c := ops[|ops| - 1].now - PERIOD;
              && (b > a ==> ops[b - 1].Packet? && ops[b - 1].p.sec <= c)
              && forall k :: b <= k < |ops| - 1 && ops[k].Packet? ==> ops[k].p.sec > c
  {
    var last := ops[|ops| - 1];
    assert !FoundOld(ops, |ops| - 1);
    forall k: nat | k < |ops| - 1
      ensures FoundOld(ops, k) <==>
                FoundOld(ops[..|ops| - 1], k) || (ops[k].Packet? && last.Query? && ops[k].p.sec <= last.now - PERIOD)
    {
      FoundBefore(ops, k);
    }
  }

  lemma ListAfterQuery(ops: seq<Op>, now: int)
    ensures ListAfter(ops + [Query(now)]) == Recent(ListAfter(ops), now - PERIOD)
  {
    assert (ops + [Query(now)])[..|ops|] == ops;
  }

  lemma HistoryAfterQuery(ops: seq<Op>, now: int, b: nat)
    requires b <= |ops|
    ensures History((ops + [Query(now)])[b..]) == History(ops[b..])
  {
    var all := ops + [Query(now)];
    assert all[..|ops|] == ops && all[|ops|] == Query(now);
    HistoryFrom(all, b);
  }

  /** The sum returned at `now` is that of all packets after the last one which this or an earlier query found
      old, in 32-bit arithmetic: the times of the calls alone tell what is counted. */
  lemma SumFromTimes(ops: seq<Op>, now: int, b: nat)
    requires LastFoundOld(ops + [Query(now)], b)
    ensures b <= |ops| && RecentSum(ListAfter(ops), now - PERIOD) == Wrap(Total(History(ops[b..])))
  {
    assert !FoundOld(ops + [Query(now)], |ops|);
    ListAfterQuery(ops, now);
    HistoryAfterQuery(ops, now, b);
    ListFromTimes(ops + [Query(now)], b);
    MergedTotal(History(ops[b..]));
  }

  lemma {:induction false} HistorySplits(ops: seq<Op>, b: nat)
    requires b <= |ops|
    ensures History(ops) == History(ops[b..]) + History(ops[..b])
  {
    if b == |ops| {
      assert ops[..b] == ops && ops[b..] == [];
    } else {
      var front := ops[..|ops| - 1];
      HistorySplits(front, b);
      HistoryFrom(ops, b);
      assert front[..b] == ops[..b];
    }
  }

  lemma {:induction false} AllLater(ops: seq<Op>, c: int)
    requires forall k :: 0 <= k < |ops| && ops[k].Packet? ==> ops[k].p.sec > c
    ensures forall i :: 0 <= i < |History(ops)| ==> History(ops)[i].sec > c
  {
    if ops != [] {
      AllLater(ops[..|ops| - 1], c);
    }
  }

  lemma WindowSplits(ops: seq<Op>, now: int, b: nat)
    requires LastFoundOld(ops + [Query(now)], b) && b <= |ops|
    ensures SumSince(History(ops), now - PERIOD) == Total(History(ops[b..])) + SumSince(History(ops[..b]), now - PERIOD)
  {
    NoneOld(ops, now, b);
    AllLater(ops[b..], now - PERIOD);
    AllRecent(History(ops[b..]), now - PERIOD);
    HistorySplits(ops, b);
    JoinedSum(History(ops[b..]), History(ops[..b]), now - PERIOD);
  }

  lemma GapIff(sum: int, counted: int, rest: int, all: int)
    requires sum == Wrap(counted) && all == counted + rest
    ensures sum == Wrap(all) <==> Wrap(rest) == 0
  {
    WrapGap(counted, rest);
  }

  /** So it is the sum of all packets of the last PERIOD seconds exactly if those of them before the last packet
      found old add nothing. */
  lemma SumIsRightIffFromTimes(ops: seq<Op>, now: int, b: nat)
    requires LastFoundOld(ops + [Query(now)], b)
    ensures b <= |ops|
    ensures SumIsRight(ListAfter(ops), History(ops), now - PERIOD) <==> Wrap(SumSince(History(ops[..b]), now - PERIOD)) == 0
  {
    var c := now - PERIOD;
    SumFromTimes(ops, now, b);
    WindowSplits(ops, now, b);
    GapIff(RecentSum(ListAfter(ops), c), Total(History(ops[b..])), SumSince(History(ops[..b]), c), SumSince(History(ops), c));
  }

  lemma NoneOld(ops: seq<Op>, now: int, b: nat)
    requires LastFoundOld(ops + [Query(now)], b) && b <= |ops|
    ensures forall k :: 0 <= k < |ops[b..]| && ops[b..][k].Packet? ==> ops[b..][k].p.sec > now - PERIOD
  {
    var all := ops + [Query(now)];
    assert all[|ops|] == Query(now) && all[..|ops|] == ops;
    forall k | b <= k < |ops| && ops[k].Packet? ensures ops[k].p.sec > now - PERIOD {
      assert !FoundOld(all, k);
      FoundBefore(all, k);
    }
  }

  lemma {:induction false} NoBytesIn(ops: seq<Op>, c: int)
    ensures SumSince(History(ops), c) == 0 <==> forall k :: 0 <= k < |ops| && ops[k].Packet? && ops[k].p.sec > c ==> ops[k].p.len == 0
  {
    if ops != [] {
      var front, last := ops[..|ops| - 1], ops[|ops| - 1];
      NoBytesIn(front, c);
      if last.Packet? {
        HistorySum(History(front), last.p, c);
      }
      assert ops == front + [last];
    }
  }

  /** While the packets of the window are shorter than 2^32 bytes together: exactly if every packet of the window
      before the last packet found old is empty. */
  lemma SumIsRightIffNoneBefore(ops: seq<Op>, now: int, b: nat)
    requires LastFoundOld(ops + [Query(now)], b) && SumSince(History(ops), now - PERIOD) < U32
    ensures b <= |ops|
    ensures SumIsRight(ListAfter(ops), History(ops), now - PERIOD) <==>
            forall k :: 0 <= k < b && ops[k].Packet? && ops[k].p.sec > now - PERIOD ==> ops[k].p.len == 0
  {
    SumIsRightIffFromTimes(ops, now, b);
    WindowSplits(ops, now, b);
    SmallSum(SumSince(History(ops[..b]), now - PERIOD));
    NoBytesIn(ops[..b], now - PERIOD);
  }

  /** It does go wrong: a packet that arrives late goes to the head of
      the list, and everything behind it is cut off with it. */
  lemma LatePacketsAreLost()
    ensures var ops := [Packet(Entry(100, 7)), Packet(Entry(10, 1))];
            RecentSum(ListAfter(ops), 101 - PERIOD) != Wrap(SumSince(History(ops), 101 - PERIOD))
  {
    var a, b := Packet(Entry(100, 7)), Packet(Entry(10, 1));
    var ops := [a, b];
    assert ops[..1] == [a] && [a][..0] == [];
    assert ListAfter([a]) == [Entry(100, 7)];
    assert ListAfter(ops) == [Entry(10, 1), Entry(100, 7)];
    assert History([a]) == [Entry(100, 7)];
    assert History(ops) == [Entry(10, 1), Entry(100, 7)];
    assert History(ops)[1..] == [Entry(100, 7)];
    assert SumSince(History(ops), 96) == SumSince([Entry(100, 7)], 96) == 7;
    assert Cut(ListAfter(ops), 96) == 0;
  }
}
