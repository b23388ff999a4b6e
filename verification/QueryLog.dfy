/** The in-memory query log: one bounded queue per address, evicted only on insertion. */
module QueryLog {
  import opened Text

  /** Times are nanoseconds; clock readings are inputs. */
  const MAX_AGE: int := 600_000_000_000
  const MAX_PER_IP: nat := 1000

  datatype Log = Log(queryTime: int, question: string, answer: string)

  /** An insertion that took place: the address, the entry and the clock reading used. */
  datatype Insertion<Ip> = Insertion(ip: Ip, log: Log, now: int)

  predicate Young(e: Log, now: int) {
    e.queryTime >= now - MAX_AGE
  }

  function KeepYoung(entries: seq<Log>, now: int): seq<Log> {
    if entries == [] then []
    else
      var n := |entries| - 1;
      KeepYoung(entries[..n], now) + if Young(entries[n], now) then [entries[n]] else []
  }

  /** `r` is what `entries` has that is not older than ten minutes at `now` and among the last
      `n` entries, in the same order. */
  ghost predicate IsYoungPart(entries: seq<Log>, n: nat, now: int, r: seq<Log>) {
    exists at: seq<nat> :: Picks(entries, at, r) && forall i: nat ::
      i in at <==> i < |entries| && i + n >= |entries| && entries[i].queryTime >= now - 600_000_000_000
  }

  lemma {:induction false} KeepYoungPicks(entries: seq<Log>, now: int) returns (at: seq<nat>)
    ensures Picks(entries, at, KeepYoung(entries, now))
    ensures forall i: nat :: i in at <==> i < |entries| && entries[i].queryTime >= now - MAX_AGE
  {
    if entries == [] {
      at := [];
    } else {
      var n := |entries| - 1;
      at := KeepYoungPicks(entries[..n], now);
      assert entries == entries[..n] + [entries[n]];
      PicksSnoc(entries[..n], at, KeepYoung(entries[..n], now), entries[n]);
      at := if Young(entries[n], now) then at + [n] else at;
    }
  }

  lemma {:induction false} PicksShifted(s: seq<Log>, from: nat, at: seq<nat>, r: seq<Log>) returns (shifted: seq<nat>)
    requires from <= |s| && Picks(s[from..], at, r)
    ensures Picks(s, shifted, r) && |shifted| == |at| && forall i :: 0 <= i < |at| ==> shifted[i] == from + at[i]
  {
    shifted := seq(|at|, i requires 0 <= i < |at| => from + at[i]);
    assert forall i :: 0 <= i < |s| - from ==> s[from..][i] == s[from + i];
  }

  lemma {:induction false} MemberShifted(from: nat, at: seq<nat>, shifted: seq<nat>, i: nat)
    requires |shifted| == |at| && forall k :: 0 <= k < |at| ==> shifted[k] == from + at[k]
    ensures i in shifted <==> i >= from && i - from in at
  {
    if i >= from && i - from in at {
      var k :| 0 <= k < |at| && at[k] == i - from;
      assert shifted[k] == i;
    }
  }

  lemma {:induction false} WindowPicks(entries: seq<Log>, n: nat, now: int)
    ensures IsYoungPart(entries, n, now, KeepYoung(LastOf(entries, n), now))
  {
    var from: nat := if |entries| <= n then 0 else |entries| - n;
    var window := entries[from..];
    assert LastOf(entries, n) == window;
    var at := KeepYoungPicks(window, now);
    var shifted := PicksShifted(entries, from, at, KeepYoung(window, now));
    forall i: nat
      ensures i in shifted <==> i < |entries| && i + n >= |entries| && entries[i].queryTime >= now - MAX_AGE
    {
      MemberShifted(from, at, shifted, i);
    }
  }

  function LastOf(entries: seq<Log>, n: nat): seq<Log> {
    if |entries| <= n then entries else entries[|entries| - n..]
  }

  /** Everything ever inserted for an address, in insertion order. */
  function EntriesOf<Ip(==)>(history: seq<Insertion<Ip>>, ip: Ip): seq<Log> {
    if history == [] then []
    else
      var n := |history| - 1;
      EntriesOf(history[..n], ip) + if history[n].ip == ip then [history[n].log] else []
  }

  /** They are the entries of exactly the insertions for that address, in order. */
  lemma {:induction false} EntriesPicked<Ip>(history: seq<Insertion<Ip>>, ip: Ip) returns (at: seq<nat>)
    ensures Picks(LogsOf(history), at, EntriesOf(history, ip))
    ensures forall k: nat :: k in at <==> k < |history| && history[k].ip == ip
  {
    if history == [] {
      at := [];
    } else {
      var n := |history| - 1;
      at := EntriesPicked(history[..n], ip);
      assert LogsOf(history) == LogsOf(history[..n]) + [history[n].log];
      PicksSnoc(LogsOf(history[..n]), at, EntriesOf(history[..n], ip), history[n].log);
      at := if history[n].ip == ip then at + [n] else at;
    }
  }

  function LogsOf<Ip>(history: seq<Insertion<Ip>>): seq<Log> {
    seq(|history|, k requires 0 <= k < |history| => history[k].log)
  }

  /** Number of expired entries at the front of the queue. */
  function Expired(entries: seq<Log>, now: int): (n: nat)
    ensures n <= |entries|
    ensures forall i :: 0 <= i < n ==> !Young(entries[i], now)
    ensures n < |entries| ==> Young(entries[n], now)
  {
    if entries != [] && !Young(entries[0], now) then 1 + Expired(entries[1..], now) else 0
  }

  /** One insertion: expired entries leave from the front until the first young one, then one
      more if the queue is still full, and the new entry joins at the back. */
  function Inserted(entries: seq<Log>, log: Log, now: int): seq<Log> {
    var live := entries[Expired(entries, now)..];
    (if |live| >= MAX_PER_IP then live[1..] else live) + [log]
  }

  /** The same without saying how it is computed. */
  ghost predicate IsInserted(before: seq<Log>, log: Log, now: int, after: seq<Log>) {
    exists e: nat :: InsertedAfter(before, e, log, now, after)
  }

  /** The first `e` entries were expired and the next one was not. */
  ghost predicate InsertedAfter(before: seq<Log>, e: nat, log: Log, now: int, after: seq<Log>) {
    && e <= |before|
    && (forall i :: 0 <= i < e ==> before[i].queryTime < now - 600_000_000_000)
    && (e < |before| ==> before[e].queryTime >= now - 600_000_000_000)
    && after == (if |before| - e >= 1000 then before[e + 1..] else before[e..]) + [log]
  }

  lemma {:induction false} InsertedIs(before: seq<Log>, log: Log, now: int)
    ensures IsInserted(before, log, now, Inserted(before, log, now))
  {
    var e := Expired(before, now);
    assert e < |before| ==> before[e..][1..] == before[e + 1..];
    assert InsertedAfter(before, e, log, now, Inserted(before, log, now));
  }

  /** The queue is the end of the full list of entries, it is not too long, and each entry
      that it has lost although it is among the last thousand was expired at some clock
      reading not after `latest`. */
  ghost predicate IsQueueOf(entries: seq<Log>, all: seq<Log>, latest: int) {
    && |entries| <= MAX_PER_IP
    && |entries| <= |all|
    && entries == all[|all| - |entries|..]
    && forall i :: 0 <= i < |all| - |entries| && |all| - MAX_PER_IP <= i ==> !Young(all[i], latest)
  }

  /** One insertion keeps that, whatever the time stamps and the clock say. */
  lemma {:induction false} InsertedIsQueue(entries: seq<Log>, all: seq<Log>, latest: int, log: Log, now: int, newest: int)
    requires IsQueueOf(entries, all, latest) && latest <= newest && now <= newest
    ensures IsQueueOf(Inserted(entries, log, now), all + [log], newest)
  {
    var gone := Expired(entries, now);
    var after := Inserted(entries, log, now);
    var more := all + [log];
    assert forall i :: |all| - |entries| <= i < |all| ==> all[i] == entries[i - (|all| - |entries|)];
    assert after == more[|more| - |after|..];
  }

  /** A queue filtered for age answers like the last thousand entries filtered for age. */
  lemma {:induction false} QueueAnswers(entries: seq<Log>, all: seq<Log>, latest: int, now: int)
    requires IsQueueOf(entries, all, latest) && latest <= now
    ensures KeepYoung(entries, now) == KeepYoung(LastOf(all, MAX_PER_IP), now)
  {
    var window := LastOf(all, MAX_PER_IP);
    var lost := |window| - |entries|;
    assert window == window[..lost] + entries;
    assert forall i :: 0 <= i < lost ==> window[i] == all[|all| - |window| + i];
    KeepYoungConcat(window[..lost], entries, now);
    NoneYoung(window[..lost], now);
  }

  /** In general: exactly when no entry that the queue has lost, among the last thousand, is
      young at the time of the question. */
  lemma {:induction false} QueueAnswersIff(entries: seq<Log>, all: seq<Log>, latest: int, now: int)
    requires IsQueueOf(entries, all, latest)
    ensures KeepYoung(entries, now) == KeepYoung(LastOf(all, MAX_PER_IP), now)
       <==> forall i :: 0 <= i < |all| - |entries| && |all| - MAX_PER_IP <= i ==> !Young(all[i], now)
  {
    var window := LastOf(all, MAX_PER_IP);
    var lost := window[..|window| - |entries|];
    assert window == lost + entries;
    assert forall i :: 0 <= i < |lost| ==> lost[i] == all[|all| - |window| + i];
    assert forall i :: 0 <= i < |all| - |entries| && |all| - MAX_PER_IP <= i ==> all[i] == lost[i - (|all| - |window|)];
    KeepYoungConcat(lost, entries, now);
    SomeYoung(lost, now);
  }

  /** For a clock that goes back, however little, there is a history of two insertions for
      which an entry is lost that is still young at the time of the question. */
  lemma {:induction false} ClockGoingBackLoses<Ip(!new)>(ip: Ip, now: int, later: int)
    requires now < later
    ensures var a, b := Log(later - MAX_AGE - 1, "", ""), Log(later, "", "");
            var history := [Insertion(ip, a, later - MAX_AGE - 1), Insertion(ip, b, later)];
            var queue := Inserted(Inserted([], a, later - MAX_AGE - 1), b, later);
            && EntriesOf(history, ip) == [a, b]
            && Young(a, now)
            && KeepYoung(queue, now) == [b] != KeepYoung(LastOf([a, b], MAX_PER_IP), now)
  {
    var a, b := Log(later - MAX_AGE - 1, "", ""), Log(later, "", "");
    var history := [Insertion(ip, a, later - MAX_AGE - 1), Insertion(ip, b, later)];
    assert history[..1] == [Insertion(ip, a, later - MAX_AGE - 1)] && history[..1][..0] == [];
    assert EntriesOf(history[..1], ip) == [a];
    assert Inserted([], a, later - MAX_AGE - 1) == [a];
    assert Expired([a], later) == 1;
    assert Inserted([a], b, later) == [b];
    assert [b][..0] == [] && [a, b][..1] == [a] && [a][..0] == [];
    assert KeepYoung([a], now) == [a];
  }

  lemma {:induction false} KeepYoungConcat(a: seq<Log>, b: seq<Log>, now: int)
    ensures KeepYoung(a + b, now) == KeepYoung(a, now) + KeepYoung(b, now)
  {
    if b == [] {
      assert a + b == a;
    } else {
      var n := |b| - 1;
      assert (a + b)[..|a + b| - 1] == a + b[..n];
      KeepYoungConcat(a, b[..n], now);
    }
  }

  lemma {:induction false} NoneYoung(entries: seq<Log>, now: int)
    requires forall i :: 0 <= i < |entries| ==> !Young(entries[i], now)
    ensures KeepYoung(entries, now) == []
  {
    if entries == [] {
    } else {
      NoneYoung(entries[..|entries| - 1], now);
    }
  }

  lemma {:induction false} SomeYoung(entries: seq<Log>, now: int)
    ensures KeepYoung(entries, now) != [] <==> exists i :: 0 <= i < |entries| && Young(entries[i], now)
  {
    if entries == [] {
    } else {
      var n := |entries| - 1;
      SomeYoung(entries[..n], now);
      if i :| 0 <= i < |entries| && Young(entries[i], now) {
        assert i < n ==> Young(entries[..n][i], now);
      }
    }
  }

  function Queue<Ip(==)>(logs: map<Ip, seq<Log>>, ip: Ip): seq<Log> {
    if ip in logs then logs[ip] else []
  }

  predicate NewestYoung(entries: seq<Log>, now: int) {
    entries != [] && Young(entries[|entries| - 1], now)
  }

  /** No clock reading of an insertion was after `t`. */
  ghost predicate NotAfter<Ip>(history: seq<Insertion<Ip>>, t: int) {
    forall k :: 0 <= k < |history| ==> history[k].now <= t
  }

  /** Every queue is what is left of the history of its address. */
  ghost predicate QueuesOf<Ip(!new)>(logs: map<Ip, seq<Log>>, history: seq<Insertion<Ip>>) {
    && (forall ip, t :: NotAfter(history, t) ==> IsQueueOf(Queue(logs, ip), EntriesOf(history, ip), t))
    && (forall ip :: ip in logs ==> logs[ip] != [])
  }

  lemma {:induction false} InsertKeepsQueues<Ip(!new)>(logs: map<Ip, seq<Log>>, history: seq<Insertion<Ip>>, ip: Ip, log: Log, now: int)
    requires QueuesOf(logs, history)
    ensures QueuesOf(logs[ip := Inserted(Queue(logs, ip), log, now)], history + [Insertion(ip, log, now)])
  {
    var more := history + [Insertion(ip, log, now)];
    var after := logs[ip := Inserted(Queue(logs, ip), log, now)];
    assert more[..|history|] == history;
    forall other, t | NotAfter(more, t)
      ensures IsQueueOf(Queue(after, other), EntriesOf(more, other), t)
    {
      assert more[|history|].now <= t;
      assert forall k :: 0 <= k < |history| ==> history[k] == more[k];
      assert NotAfter(history, t);
      assert IsQueueOf(Queue(logs, other), EntriesOf(history, other), t);
      if other == ip {
        InsertedIsQueue(Queue(logs, ip), EntriesOf(history, ip), t, log, now, t);
        assert EntriesOf(more, ip) == EntriesOf(history, ip) + [log];
        assert Queue(after, ip) == Inserted(Queue(logs, ip), log, now);
      } else {
        assert EntriesOf(more, other) == EntriesOf(history, other) + [];
        assert Queue(after, other) == Queue(logs, other);
      }
    }
  }

  /** `Ip` is the address type. The ghost history is unbounded; the clock of an insertion may
      be any reading. */
  class QueryLogStore<Ip(==, !new)> {
    var logs: map<Ip, seq<Log>>
    ghost var history: seq<Insertion<Ip>>

    ghost predicate Valid()
      reads this
    {
      QueuesOf(logs, history)
    }

    constructor ()
      ensures Valid() && logs == map[] && history == []
    {
      logs, history := map[], [];
    }

    method Insert(ip: Ip, log: Log, now: int)
      requires Valid()
      modifies this
      ensures Valid()
      ensures history == old(history) + [Insertion(ip, log, now)]
      ensures logs == old(logs)[ip := Inserted(Queue(old(logs), ip), log, now)]
      ensures IsInserted(Queue(old(logs), ip), log, now, logs[ip])
    {
      var entries := if ip in logs then logs[ip] else [];
      while |entries| > 0 && entries[0].queryTime < now - MAX_AGE
        invariant entries[Expired(entries, now)..] == Queue(logs, ip)[Expired(Queue(logs, ip), now)..]
      {
        assert entries[1..][Expired(entries[1..], now)..] == entries[Expired(entries, now)..];
        entries := entries[1..];
      }
      assert entries[0..] == entries;
      if |entries| >= MAX_PER_IP {
        entries := entries[1..];
      }
      entries := entries + [log];
      InsertedIs(Queue(logs, ip), log, now);
      InsertKeepsQueues(logs, history, ip, log, now);
      logs := logs[ip := entries];
      history := history + [Insertion(ip, log, now)];
    }

    /** Entries not older than ten minutes; if no clock reading was later than `now`, exactly
        those among the last thousand ever inserted for the address, in insertion order. */
    method GetLogs(ip: Ip, now: int) returns (r: seq<Log>)
      requires Valid()
      ensures r == KeepYoung(Queue(logs, ip), now)
      ensures IsYoungPart(Queue(logs, ip), |Queue(logs, ip)|, now, r)
      ensures NotAfter(history, now) ==> IsYoungPart(EntriesOf(history, ip), 1000, now, r)
    {
      r := KeepYoung(Queue(logs, ip), now);
      WindowPicks(Queue(logs, ip), |Queue(logs, ip)|, now);
      WindowPicks(EntriesOf(history, ip), MAX_PER_IP, now);
      if NotAfter(history, now) {
        QueueAnswers(Queue(logs, ip), EntriesOf(history, ip), now, now);
      }
    }

    /** Only the newest entry of each queue is inspected. */
    method ActiveIps(now: int) returns (n: nat)
      requires Valid()
      ensures n <= |LoggedSet(logs, now)|
      ensures n == |LoggedSet(logs, now)|
         <==> forall ip :: ip in logs && KeepYoung(logs[ip], now) != [] ==>
                logs[ip] != [] && logs[ip][|logs[ip]| - 1].queryTime >= now - MAX_AGE
      ensures (forall ip :: InTimeOrder(EntriesOf(history, ip))) ==> n == |LoggedSet(logs, now)|
    {
      n := |set ip | ip in logs && NewestYoung(logs[ip], now)|;
      ActiveIpsCount(logs, now);
      if forall ip :: InTimeOrder(EntriesOf(history, ip)) {
        ActiveIpsInOrder(logs, history, now);
      }
    }
  }

  function ActiveSet<Ip(==)>(logs: map<Ip, seq<Log>>, now: int): set<Ip> {
    set ip | ip in logs && NewestYoung(logs[ip], now)
  }

  /** Addresses for which `get_logs` gives something. */
  function LoggedSet<Ip(==)>(logs: map<Ip, seq<Log>>, now: int): set<Ip> {
    set ip | ip in logs && KeepYoung(logs[ip], now) != []
  }

  lemma {:induction false} SubsetSize<T>(a: set<T>, b: set<T>)
    requires a <= b
    ensures |a| <= |b| && (|a| == |b| ==> a == b)
  {
    assert |b| == |a| + |b - a| by {
      assert b == a + (b - a);
    }
  }

  /** `active_ips` never exceeds the number of addresses with entries to show, and equals it
      exactly when every such address has a newest entry that is young. */
  lemma {:induction false} ActiveIpsCount<Ip>(logs: map<Ip, seq<Log>>, now: int)
    ensures |ActiveSet(logs, now)| <= |LoggedSet(logs, now)|
    ensures |ActiveSet(logs, now)| == |LoggedSet(logs, now)|
       <==> forall ip :: ip in logs && KeepYoung(logs[ip], now) != [] ==> NewestYoung(logs[ip], now)
  {
    forall ip | ip in ActiveSet(logs, now)
      ensures ip in LoggedSet(logs, now)
    {
      SomeYoung(logs[ip], now);
    }
    SubsetSize(ActiveSet(logs, now), LoggedSet(logs, now));
    if ActiveSet(logs, now) == LoggedSet(logs, now) {
      forall ip | ip in logs && KeepYoung(logs[ip], now) != []
        ensures NewestYoung(logs[ip], now)
      {
        assert ip in ActiveSet(logs, now);
      }
    }
    if forall ip :: ip in logs && KeepYoung(logs[ip], now) != [] ==> NewestYoung(logs[ip], now) {
      assert ActiveSet(logs, now) == LoggedSet(logs, now);
    }
  }

  ghost predicate InTimeOrder(entries: seq<Log>) {
    forall i, j :: 0 <= i < j < |entries| ==> entries[i].queryTime <= entries[j].queryTime
  }

  lemma {:induction false} LatestReading<Ip>(history: seq<Insertion<Ip>>) returns (t: int)
    ensures NotAfter(history, t)
  {
    if history == [] {
      t := 0;
    } else {
      var n := |history| - 1;
      t := LatestReading(history[..n]);
      assert forall k :: 0 <= k < n ==> history[k] == history[..n][k];
      t := if t < history[n].now then history[n].now else t;
    }
  }

  // ---------- the clock ----------

  /** What `get_logs` answers for every address is what the last thousand entries ever
      inserted for it answer. */
  ghost predicate AnswersTruly<Ip(!new)>(logs: map<Ip, seq<Log>>, history: seq<Insertion<Ip>>, now: int) {
    forall ip :: KeepYoung(Queue(logs, ip), now) == KeepYoung(LastOf(EntriesOf(history, ip), MAX_PER_IP), now)
  }

  /** Two insertions for `ip`, the later one at `later`, and what is left of them. */
  function TwoInsertions<Ip>(ip: Ip, later: int): seq<Insertion<Ip>> {
    [Insertion(ip, Log(later - MAX_AGE - 1, "", ""), later - MAX_AGE - 1), Insertion(ip, Log(later, "", ""), later)]
  }

  function AfterTwo<Ip>(ip: Ip, later: int): map<Ip, seq<Log>> {
    map[ip := Inserted(Inserted([], Log(later - MAX_AGE - 1, "", ""), later - MAX_AGE - 1), Log(later, "", ""), later)]
  }

  lemma {:induction false} AfterTwoQueues<Ip(!new)>(ip: Ip, later: int)
    ensures QueuesOf(AfterTwo(ip, later), TwoInsertions(ip, later)) && NotAfter(TwoInsertions(ip, later), later)
  {
    var a, b := Log(later - MAX_AGE - 1, "", ""), Log(later, "", "");
    var none: map<Ip, seq<Log>> := map[];
    InsertKeepsQueues(none, [], ip, a, later - MAX_AGE - 1);
    var one := none[ip := Inserted([], a, later - MAX_AGE - 1)];
    assert [] + [Insertion(ip, a, later - MAX_AGE - 1)] == [Insertion(ip, a, later - MAX_AGE - 1)];
    InsertKeepsQueues(one, [Insertion(ip, a, later - MAX_AGE - 1)], ip, b, later);
    assert TwoInsertions(ip, later) == [Insertion(ip, a, later - MAX_AGE - 1)] + [Insertion(ip, b, later)];
    assert AfterTwo(ip, later) == one[ip := Inserted(Inserted([], a, later - MAX_AGE - 1), b, later)];
  }

  /** All logs whose insertions read the clock at `latest` or before answer truly at `now`
      exactly when `now` is not before `latest`. */
  lemma {:induction false} AnswersTrulyIff<Ip(!new)>(ip: Ip, latest: int, now: int)
    ensures (forall logs: map<Ip, seq<Log>>, history ::
               QueuesOf(logs, history) && NotAfter(history, latest) ==> AnswersTruly(logs, history, now))
       <==> latest <= now
  {
    if latest <= now {
      forall logs: map<Ip, seq<Log>>, history | QueuesOf(logs, history) && NotAfter(history, latest)
        ensures AnswersTruly(logs, history, now)
      {
        QueuesAnswer(logs, history, latest, now);
      }
    } else {
      AfterTwoQueues(ip, latest);
      ClockGoingBackLoses(ip, now, latest);
      assert Queue(AfterTwo(ip, latest), ip) == AfterTwo(ip, latest)[ip];
      assert !AnswersTruly(AfterTwo(ip, latest), TwoInsertions(ip, latest), now);
    }
  }

  lemma {:induction false} QueuesAnswer<Ip(!new)>(logs: map<Ip, seq<Log>>, history: seq<Insertion<Ip>>, latest: int, now: int)
    requires QueuesOf(logs, history) && NotAfter(history, latest) && latest <= now
    ensures AnswersTruly(logs, history, now)
  {
    forall ip
      ensures KeepYoung(Queue(logs, ip), now) == KeepYoung(LastOf(EntriesOf(history, ip), MAX_PER_IP), now)
    {
      QueueAnswers(Queue(logs, ip), EntriesOf(history, ip), latest, now);
    }
  }

  // ---------- active addresses ----------

  /** They are equal whenever the entries of each address were inserted in time order. */
  lemma {:induction false} ActiveIpsInOrder<Ip(!new)>(logs: map<Ip, seq<Log>>, history: seq<Insertion<Ip>>, now: int)
    requires QueuesOf(logs, history)
    requires forall ip :: InTimeOrder(EntriesOf(history, ip))
    ensures |ActiveSet(logs, now)| == |LoggedSet(logs, now)|
  {
    var t := LatestReading(history);
    forall ip | ip in logs && KeepYoung(logs[ip], now) != []
      ensures NewestYoung(logs[ip], now)
    {
      SomeYoung(logs[ip], now);
      var i :| 0 <= i < |logs[ip]| && Young(logs[ip][i], now);
      var all := EntriesOf(history, ip);
      assert IsQueueOf(Queue(logs, ip), all, t);
      var skipped := |all| - |logs[ip]|;
      assert logs[ip][i] == all[skipped + i] && logs[ip][|logs[ip]| - 1] == all[|all| - 1];
    }
    ActiveIpsCount(logs, now);
  }
}
