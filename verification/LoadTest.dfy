/** The request bookkeeping of the ingestion load test, over any interleaving of sends, replies and errors. */
module LoadTest {
  import opened Common

  /** What happens to a request, in the order the event loop runs it. */
  datatype Event =
    | Sent(id: nat)
    | Replied(id: nat, latency: real, status: int)
    | Failed(id: nat, code: string)

  type History = seq<Event>

  function Most(h: History): History
    requires h != []
  {
    h[..|h| - 1]
  }

  function Last(h: History): Event
    requires h != []
  {
    h[|h| - 1]
  }

  // ---- What the counters stand for

  function Sends(h: History): nat {
    if h == [] then 0 else Sends(Most(h)) + if Last(h).Sent? then 1 else 0
  }

  function Latencies(h: History): seq<real> {
    if h == [] then []
    else match Last(h) case Replied(_, latency, _) => Latencies(Most(h)) + [latency] case _ => Latencies(Most(h))
  }

  function Statuses(h: History): seq<int> {
    if h == [] then []
    else match Last(h) case Replied(_, _, status) => Statuses(Most(h)) + [status] case _ => Statuses(Most(h))
  }

  function Codes(h: History): seq<string> {
    if h == [] then []
    else match Last(h) case Failed(_, code) => Codes(Most(h)) + [code] case _ => Codes(Most(h))
  }

  predicate IsAccepted(status: int) {
    status == 202 || status == 200 || status == 201
  }

  function Accepted(statuses: seq<int>): (n: nat)
    ensures n <= |statuses|
  {
    if statuses == [] then 0
    else Accepted(statuses[..|statuses| - 1]) + if IsAccepted(statuses[|statuses| - 1]) then 1 else 0
  }

  /** How often each item occurs. */
  function Tally<K>(items: seq<K>): map<K, nat> {
    if items == [] then map[] else Bumped(Tally(items[..|items| - 1]), items[|items| - 1])
  }

  function Bumped<K>(counts: map<K, nat>, key: K): map<K, nat> {
    counts[key := Occurrences(counts, key) + 1]
  }

  function Occurrences<K>(counts: map<K, nat>, key: K): nat {
    if key in counts then counts[key] else 0
  }

  /** Sends less settlements; negative if requests settle more than once. */
  function Outstanding(h: History): int {
    if h == [] then 0 else Outstanding(Most(h)) + if Last(h).Sent? then 1 else -1
  }

  function Peak(h: History): int {
    if h == [] then 0
    else if Last(h).Sent? then Max(Peak(Most(h)), Outstanding(h)) else Peak(Most(h))
  }

  /** The requests that have been sent and not settled. */
  function Open(h: History): set<nat> {
    if h == [] then {}
    else match Last(h) case Sent(id) => Open(Most(h)) + {id} case e => Open(Most(h)) - {e.id}
  }

  /** The settlements of requests that are not open: a request that both replied and failed has one. */
  function Extra(h: History): nat {
    if h == [] then 0
    else Extra(Most(h)) + if !Last(h).Sent? && Last(h).id !in Open(Most(h)) then 1 else 0
  }

  // ---- The counters

  class Counters {
    var latencies: seq<real>
    var statusCounts: map<int, nat>
    var errorCounts: map<string, nat>
    var sent: nat
    var accepted: nat
    var inFlight: int
    var maxInFlight: int
    ghost var history: History

    ghost predicate Valid()
      reads this
    {
      && latencies == Latencies(history)
      && statusCounts == Tally(Statuses(history))
      && errorCounts == Tally(Codes(history))
      && sent == Sends(history)
      && accepted == Accepted(Statuses(history))
      && inFlight == Outstanding(history)
      && maxInFlight == Peak(history)
      && Counted(history)
    }

    constructor ()
      ensures Valid() && history == []
    {
      latencies, statusCounts, errorCounts := [], map[], map[];
      sent, accepted, inFlight, maxInFlight := 0, 0, 0, 0;
      history := [];
    }

    /** Start request number `sent`, then count it. */
    method Send()
      requires Valid()
      modifies this
      ensures Valid() && history == old(history) + [Sent(old(sent))]
    {
      AfterSend(history, sent);
      inFlight := inFlight + 1;
      maxInFlight := Max(maxInFlight, inFlight);
      history := history + [Sent(sent)];
      sent := sent + 1;
    }

    /** The end of a response. */
    method End(id: nat, latency: real, status: int)
      requires Valid()
      modifies this
      ensures Valid() && history == old(history) + [Replied(id, latency, status)]
    {
      AfterReply(history, id, latency, status);
      latencies := latencies + [latency];
      statusCounts := Bumped(statusCounts, status);
      if status == 202 || status == 200 || status == 201 {
        accepted := accepted + 1;
      }
      inFlight := inFlight - 1;
      history := history + [Replied(id, latency, status)];
    }

    /** A transport error. */
    method Error(id: nat, code: string)
      requires Valid()
      modifies this
      ensures Valid() && history == old(history) + [Failed(id, code)]
    {
      AfterError(history, id, code);
      errorCounts := Bumped(errorCounts, code);
      inFlight := inFlight - 1;
      history := history + [Failed(id, code)];
    }

    method Settle(e: Event)
      requires Valid() && !e.Sent?
      modifies this
      ensures Valid() && history == old(history) + [e]
    {
      match e
      case Replied(id, latency, status) => End(id, latency, status);
      case Failed(id, code) => Error(id, code);
    }

    /** The callbacks that run while the pacing loop waits. */
    method Wait(callbacks: seq<Event>)
      requires Valid() && forall e | e in callbacks :: !e.Sent?
      modifies this
      ensures Valid() && history == old(history) + callbacks
    {
      for i := 0 to |callbacks|
        invariant Valid() && history == old(history) + callbacks[..i]
      {
        Settle(callbacks[i]);
        assert callbacks[..i + 1] == callbacks[..i] + [callbacks[i]];
      }
      assert callbacks[..|callbacks|] == callbacks;
    }

    method Tick(rate: nat)
      requires Valid()
      modifies this
      ensures Valid() && sent == old(sent) + rate && history == old(history) + Burst(old(sent), rate)
    {
      for i := 0 to rate
        invariant Valid() && sent == old(sent) + i && history == old(history) + Burst(old(sent), i)
      {
        BurstStep(old(sent), i);
        Regroup(old(history), Burst(old(sent), i), [Sent(sent)]);
        Send();
        SendsAppend(old(history) + Burst(old(sent), i), Sent(old(sent) + i));
      }
    }

    /** Every tick offers `rate` requests, whatever has come back; `waits` holds the callbacks of each wait. */
    method Offer(rate: nat, waits: seq<seq<Event>>)
      requires Valid() && forall i, e | 0 <= i < |waits| && e in waits[i] :: !e.Sent?
      modifies this
      ensures Valid() && history == old(history) + Schedule(old(sent), rate, waits)
      ensures sent == old(sent) + rate * |waits|
    {
      ghost var before, start := history, sent;
      for tick := 0 to |waits|
        invariant Valid() && sent == start + rate * tick
        invariant history == before + Schedule(start, rate, waits[..tick])
      {
        ScheduleStep(before, start, rate, waits, tick);
        Tick(rate);
        NoSends(history, waits[tick]);
        Wait(waits[tick]);
      }
      assert waits[..|waits|] == waits;
    }
  }

  // ---- What an event does to the counters

  lemma SendsAppend(h: History, e: Event)
    ensures Sends(h + [e]) == Sends(h) + if e.Sent? then 1 else 0
  {
    assert Most(h + [e]) == h;
  }

  lemma AfterSend(h: History, id: nat)
    requires Counted(h) && id == Sends(h)
    ensures var next := h + [Sent(id)];
            && Sends(next) == id + 1 && Counted(next)
            && Latencies(next) == Latencies(h) && Statuses(next) == Statuses(h) && Codes(next) == Codes(h)
            && Outstanding(next) == Outstanding(h) + 1 && Peak(next) == Max(Peak(h), Outstanding(h) + 1)
  {
    assert Most(h + [Sent(id)]) == h;
  }

  lemma AfterReply(h: History, id: nat, latency: real, status: int)
    requires Counted(h)
    ensures var next := h + [Replied(id, latency, status)];
            && Sends(next) == Sends(h) && Counted(next)
            && Latencies(next) == Latencies(h) + [latency] && Codes(next) == Codes(h)
            && Tally(Statuses(next)) == Bumped(Tally(Statuses(h)), status)
            && Accepted(Statuses(next)) == Accepted(Statuses(h)) + (if IsAccepted(status) then 1 else 0)
            && Outstanding(next) == Outstanding(h) - 1 && Peak(next) == Peak(h)
  {
    assert Most(h + [Replied(id, latency, status)]) == h;
    TallyAppend(Statuses(h), status);
    AcceptedAppend(Statuses(h), status);
  }

  lemma AfterError(h: History, id: nat, code: string)
    requires Counted(h)
    ensures var next := h + [Failed(id, code)];
            && Sends(next) == Sends(h) && Counted(next)
            && Latencies(next) == Latencies(h) && Statuses(next) == Statuses(h)
            && Tally(Codes(next)) == Bumped(Tally(Codes(h)), code)
            && Outstanding(next) == Outstanding(h) - 1 && Peak(next) == Peak(h)
  {
    assert Most(h + [Failed(id, code)]) == h;
    TallyAppend(Codes(h), code);
  }

  lemma TallyAppend<K>(items: seq<K>, key: K)
    ensures Tally(items + [key]) == Bumped(Tally(items), key)
  {
    assert (items + [key])[..|items|] == items;
  }

  lemma AcceptedAppend(statuses: seq<int>, status: int)
    ensures Accepted(statuses + [status]) == Accepted(statuses) + if IsAccepted(status) then 1 else 0
  {
    assert (statuses + [status])[..|statuses|] == statuses;
  }

  lemma BurstStep(first: nat, n: nat)
    ensures Burst(first, n + 1) == Burst(first, n) + [Sent(first + n)]
  {
  }

  lemma ScheduleStep(before: History, first: nat, rate: nat, waits: seq<seq<Event>>, tick: nat)
    requires tick < |waits|
    ensures before + Schedule(first, rate, waits[..tick + 1])
            == before + Schedule(first, rate, waits[..tick]) + Burst(first + rate * tick, rate) + waits[tick]
    ensures rate * (tick + 1) == rate * tick + rate
  {
    assert waits[..tick + 1][..tick] == waits[..tick];
  }

  /** `n` sends in a row. */
  function Burst(first: nat, n: nat): History {
    seq(n, i requires 0 <= i < n => Sent(first + i))
  }

  function Schedule(first: nat, rate: nat, waits: seq<seq<Event>>): History {
    if waits == [] then []
    else
      var n := |waits| - 1;
      Schedule(first, rate, waits[..n]) + (Burst(first + rate * n, rate) + waits[n])
  }

  lemma {:induction false} NoSends(h: History, callbacks: seq<Event>)
    requires forall e | e in callbacks :: !e.Sent?
    ensures Sends(h + callbacks) == Sends(h)
  {
    if callbacks == [] {
      assert h + callbacks == h;
    } else {
      NoSends(h, callbacks[..|callbacks| - 1]);
      assert Most(h + callbacks) == h + callbacks[..|callbacks| - 1];
      assert Last(h + callbacks) in callbacks;
    }
  }

  // ---- Conservation

  /** Every request sent is in flight, has a latency, or has an error. */
  lemma {:induction false} Conservation(h: History)
    ensures Sends(h) == Outstanding(h) + |Latencies(h)| + |Codes(h)|
    ensures |Statuses(h)| == |Latencies(h)|
  {
    if h != [] {
      Conservation(Most(h));
    }
  }

  ghost function Total<K>(counts: map<K, nat>): nat
    decreases |counts|
  {
    if counts == map[] then 0
    else
      var key :| key in counts;
      counts[key] + Total(counts - {key})
  }

  /** Which key is counted first does not matter. */
  lemma {:induction false} TotalSplits<K>(counts: map<K, nat>, key: K)
    requires key in counts
    ensures Total(counts) == counts[key] + Total(counts - {key})
    decreases |counts|
  {
    var first :| first in counts && Total(counts) == counts[first] + Total(counts - {first});
    if first != key {
      TotalSplits(counts - {first}, key);
      TotalSplits(counts - {key}, first);
      assert counts - {first} - {key} == counts - {key} - {first};
    }
  }

  lemma TotalBumped<K>(counts: map<K, nat>, key: K)
    ensures Total(Bumped(counts, key)) == Total(counts) + 1
  {
    TotalSplits(Bumped(counts, key), key);
    assert Bumped(counts, key) - {key} == counts - {key};
    if key in counts {
      TotalSplits(counts, key);
    } else {
      assert counts - {key} == counts;
    }
  }

  /** A tally has exactly the items as keys, each with its number of occurrences, and loses none. */
  lemma {:induction false} TallyIsExact<K>(items: seq<K>)
    ensures forall key :: key in Tally(items) <==> key in items
    ensures forall key :: Occurrences(Tally(items), key) == multiset(items)[key]
    ensures Total(Tally(items)) == |items|
  {
    if items != [] {
      var most, last := items[..|items| - 1], items[|items| - 1];
      TallyIsExact(most);
      TotalBumped(Tally(most), last);
      assert items == most + [last];
    }
  }

  lemma {:induction false} AcceptedIsExact(statuses: seq<int>)
    ensures Accepted(statuses) == multiset(statuses)[200] + multiset(statuses)[201] + multiset(statuses)[202]
  {
    if statuses != [] {
      AcceptedIsExact(statuses[..|statuses| - 1]);
      assert statuses == statuses[..|statuses| - 1] + [statuses[|statuses| - 1]];
    }
  }

  /** What the report prints adds up: the counts by status make up the replies, the counts by code the errors, and
    * the accepted requests are those answered 200, 201 or 202. */
  lemma ReportAddsUp(h: History)
    ensures Total(Tally(Statuses(h))) == |Latencies(h)|
    ensures Total(Tally(Codes(h))) == |Codes(h)|
    ensures Sends(h) == Outstanding(h) + Total(Tally(Statuses(h))) + Total(Tally(Codes(h)))
    ensures var counts := Tally(Statuses(h));
            && Accepted(Statuses(h)) == Occurrences(counts, 200) + Occurrences(counts, 201) + Occurrences(counts, 202)
            && Accepted(Statuses(h)) <= |Latencies(h)|
  {
    Conservation(h);
    TallyIsExact(Statuses(h));
    TallyIsExact(Codes(h));
    AcceptedIsExact(Statuses(h));
  }

  // ---- In flight

  /** The peak is the largest number in flight after any event so far. */
  lemma {:induction false} PeakIsMaximum(h: History)
    ensures forall k | 0 <= k <= |h| :: Outstanding(h[..k]) <= Peak(h)
    ensures exists k :: 0 <= k <= |h| && Outstanding(h[..k]) == Peak(h)
  {
    assert h[..|h|] == h;
    if h != [] {
      PeakIsMaximum(Most(h));
      forall k | 0 <= k <= |h| ensures Outstanding(h[..k]) <= Peak(h) {
        if k < |h| {
          assert h[..k] == Most(h)[..k];
        } else {
          assert Most(h)[..|h| - 1] == Most(h);
        }
      }
      if Peak(h) == Peak(Most(h)) {
        var k :| 0 <= k <= |Most(h)| && Outstanding(Most(h)[..k]) == Peak(Most(h));
        assert h[..k] == Most(h)[..k];
      }
    } else {
      assert Outstanding(h[..0]) == Peak(h);
    }
  }

  /** Requests are sent with distinct numbers. */
  predicate Numbered(h: History) {
    h == [] || (Numbered(Most(h)) && (Last(h).Sent? ==> Last(h).id !in Open(Most(h))))
  }

  lemma {:induction false} OutstandingIsOpen(h: History)
    requires Numbered(h)
    ensures Outstanding(h) == |Open(h)| - Extra(h)
  {
    if h != [] {
      OutstandingIsOpen(Most(h));
    }
  }

  /** Numbers go up by one, so a run of the counters numbers its requests apart. */
  predicate Counted(h: History) {
    h == [] || (Counted(Most(h)) && (Last(h).Sent? ==> Last(h).id == Sends(Most(h))))
  }

  lemma {:induction false} CountedIsNumbered(h: History)
    requires Counted(h)
    ensures Numbered(h) && forall id | id in Open(h) :: id < Sends(h)
  {
    if h != [] {
      CountedIsNumbered(Most(h));
    }
  }

  /**
   * In every run of the counters: once every request has settled, none is counted as in flight
   * exactly when no request settled twice.
   */
  lemma SettledIsZeroIff(h: History)
    requires Counted(h) && Open(h) == {}
    ensures Outstanding(h) == 0 <==> Extra(h) == 0
  {
    CountedIsNumbered(h);
    OutstandingIsOpen(h);
  }

  /** A request that is answered and then fails, as after a broken connection: one less than none is in flight. */
  lemma SettledTwiceWitness(latency: real, code: string)
    ensures var h := [Sent(0), Replied(0, latency, 200), Failed(0, code)];
            && Counted(h) && Open(h) == {} && Extra(h) == 1 && Outstanding(h) == -1
  {
    var h1 := [Sent(0)];
    var h2 := h1 + [Replied(0, latency, 200)];
    var h3 := h2 + [Failed(0, code)];
    assert Most(h1) == [] && Most(h2) == h1 && Most(h3) == h2;
    assert Counted(h1) && Open(h1) == {0} && Extra(h1) == 0 && Outstanding(h1) == 1;
    assert Counted(h2) && Open(h2) == {} && Extra(h2) == 0 && Outstanding(h2) == 0;
    assert h3 == [Sent(0), Replied(0, latency, 200), Failed(0, code)];
  }

  /** While no request settles twice, the number in flight is the number of open requests, and never negative. */
  lemma InFlightIsOpen(h: History)
    requires Counted(h) && Extra(h) == 0
    ensures Outstanding(h) == |Open(h)| >= 0
    ensures Peak(h) <= Sends(h)
  {
    CountedIsNumbered(h);
    OutstandingIsOpen(h);
    PeakIsBounded(h);
  }

  lemma {:induction false} PeakIsBounded(h: History)
    ensures Peak(h) <= Sends(h) && Outstanding(h) <= Sends(h)
  {
    if h != [] {
      PeakIsBounded(Most(h));
    }
  }
}
