/**
 * `getRecentActivity`: the newest calls and the newest offers, each fetched
 * with `LIMIT`, concatenated, sorted newest first by a stable sort, cut to the
 * limit and formatted into timeline items.
 */
module Activity {
  import opened Wrappers
  import opened Text
  import opened Limits
  import opened Formatters

  /** A row of either activity query; `createdAt` is the call or offer time as a timestamp. */
  datatype Event =
    | CallEvent(id: nat, createdAt: int, entityName: string, status: string,
                interested: Option<int>, conversion: Option<int>)
    | OfferEvent(id: nat, createdAt: int, entityName: string, amount: string, tenderCode: string)

  /** A timeline item: `id`, `type` (the constructor), `title`, `description`, `time`, and `status` or `amount`. */
  datatype ActivityItem =
    | CallItem(id: string, title: string, description: string, time: int, status: string)
    | OfferItem(id: string, title: string, description: string, time: int, amount: string)
  {
    function Time(): int {
      match this
      case CallItem(_, _, _, t, _) => t
      case OfferItem(_, _, _, t, _) => t
    }
  }

  /** The store refuses a negative `LIMIT`. */
  datatype QueryError = NegativeLimit

  predicate NewestFirst(s: seq<Event>) {
    forall i, j :: 0 <= i < j < |s| ==> s[i].createdAt >= s[j].createdAt
  }

  /** Places `x` before the first element that is not newer than it, so equal times keep `x` first. */
  function InsertByTime(x: Event, sorted: seq<Event>): (r: seq<Event>)
    ensures |r| == |sorted| + 1
    ensures r[0] == x || (sorted != [] && r[0] == sorted[0])
  {
    if sorted == [] || sorted[0].createdAt <= x.createdAt then [x] + sorted
    else
      assert sorted == [sorted[0]] + sorted[1..];
      [sorted[0]] + InsertByTime(x, sorted[1..])
  }

  /** Inserting adds exactly `x`. */
  lemma {:induction false} InsertPermutes(x: Event, sorted: seq<Event>)
    ensures multiset(InsertByTime(x, sorted)) == multiset(sorted) + multiset{x}
    decreases |sorted|
  {
    if !(sorted == [] || sorted[0].createdAt <= x.createdAt) {
      InsertPermutes(x, sorted[1..]);
      assert sorted == [sorted[0]] + sorted[1..];
    }
  }

  /** Inserting into a newest-first sequence keeps it newest first. */
  lemma {:induction false} InsertKeepsOrder(x: Event, sorted: seq<Event>)
    requires NewestFirst(sorted)
    ensures NewestFirst(InsertByTime(x, sorted))
    decreases |sorted|
  {
    if !(sorted == [] || sorted[0].createdAt <= x.createdAt) {
      var rest := InsertByTime(x, sorted[1..]);
      InsertKeepsOrder(x, sorted[1..]);
      assert sorted[0].createdAt >= rest[0].createdAt;
      assert forall j :: 0 <= j < |rest| ==> rest[0].createdAt >= rest[j].createdAt;
    }
  }

  /**
   * `.sort((a, b) => new Date(b.created_at) - new Date(a.created_at))`: a
   * stable sort (insertion from the back), newest first, a permutation of its input.
   */
  function SortByTime(s: seq<Event>): (r: seq<Event>)
    ensures |r| == |s|
    ensures NewestFirst(r)
  {
    if s == [] then []
    else
      InsertKeepsOrder(s[0], SortByTime(s[1..]));
      InsertByTime(s[0], SortByTime(s[1..]))
  }

  /** Sorting neither loses nor adds an event. */
  lemma {:induction false} SortPermutes(s: seq<Event>)
    ensures multiset(SortByTime(s)) == multiset(s)
    decreases |s|
  {
    if s != [] {
      SortPermutes(s[1..]);
      InsertPermutes(s[0], SortByTime(s[1..]));
      assert s == [s[0]] + s[1..];
    }
  }

  /** The events of `s` that happened at time `t`, in the order of `s`. */
  function AtTime(s: seq<Event>, t: int): seq<Event> {
    if s == [] then []
    else (if s[0].createdAt == t then [s[0]] else []) + AtTime(s[1..], t)
  }

  lemma {:induction false} AtTimeConcat(a: seq<Event>, b: seq<Event>, t: int)
    ensures AtTime(a + b, t) == AtTime(a, t) + AtTime(b, t)
    decreases |a|
  {
    if a == [] {
      assert a + b == b;
    } else {
      var head := if a[0].createdAt == t then [a[0]] else [];
      assert (a + b)[0] == a[0] && (a + b)[1..] == a[1..] + b;
      AtTimeConcat(a[1..], b, t);
      assert AtTime(a + b, t) == head + (AtTime(a[1..], t) + AtTime(b, t));
      assert AtTime(a, t) == head + AtTime(a[1..], t);
    }
  }

  /** `x` goes ahead of every event of its own time already in `sorted`. */
  lemma {:induction false} InsertAtTime(x: Event, sorted: seq<Event>, t: int)
    ensures AtTime(InsertByTime(x, sorted), t) == (if x.createdAt == t then [x] else []) + AtTime(sorted, t)
    decreases |sorted|
  {
    var own := if x.createdAt == t then [x] else [];
    if sorted == [] || sorted[0].createdAt <= x.createdAt {
      var r := [x] + sorted;
      assert r[0] == x && r[1..] == sorted;
    } else {
      var head := if sorted[0].createdAt == t then [sorted[0]] else [];
      var rest := InsertByTime(x, sorted[1..]);
      var r := [sorted[0]] + rest;
      assert r[0] == sorted[0] && r[1..] == rest;
      InsertAtTime(x, sorted[1..], t);
      assert head == [] || own == [];
      assert AtTime(r, t) == head + (own + AtTime(sorted[1..], t));
      assert AtTime(sorted, t) == head + AtTime(sorted[1..], t);
    }
  }

  /** The sort is stable: events of equal time keep their input order. */
  lemma {:induction false} SortStable(s: seq<Event>, t: int)
    ensures AtTime(SortByTime(s), t) == AtTime(s, t)
    decreases |s|
  {
    if s != [] {
      SortStable(s[1..], t);
      InsertAtTime(s[0], SortByTime(s[1..]), t);
    }
  }

  /** What `LIMIT n` keeps of a store-ordered stream. */
  function Take(s: seq<Event>, n: nat): (r: seq<Event>)
    ensures |r| == Min(n, |s|) && r == s[..|r|]
  {
    if n <= |s| then s[..n] else s
  }

  /** Every fetched event left out is no newer than the last one kept. */
  predicate NoNewerLeftOut(fetched: seq<Event>, kept: seq<Event>) {
    forall e :: e in multiset(fetched) - multiset(kept) ==>
      kept != [] && e.createdAt <= kept[|kept| - 1].createdAt
  }

  /** For every time, the kept events of that time are the first ones fetched, in fetched order. */
  ghost predicate KeepsTieOrder(fetched: seq<Event>, kept: seq<Event>) {
    forall t :: AtTime(kept, t) <= AtTime(fetched, t)
  }

  /** What a newest-first stream loses to `LIMIT n` is no newer than the last event kept. */
  lemma TakeLeavesNoNewer(s: seq<Event>, n: nat)
    requires n >= 1 && NewestFirst(s)
    ensures NoNewerLeftOut(s, Take(s, n))
  {
    var kept := Take(s, n);
    var rest := s[|kept|..];
    assert s == kept + rest;
    assert multiset(s) - multiset(kept) == multiset(rest);
    forall e: Event | e in multiset(rest) ensures kept != [] && e.createdAt <= kept[|kept| - 1].createdAt {
      var i :| 0 <= i < |rest| && rest[i] == e;
      assert s[|kept| + i] == e;
    }
  }

  /** `LIMIT n` keeps, for every time, a prefix of that time's events. */
  lemma TakePrefixAtTime(s: seq<Event>, n: nat)
    ensures KeepsTieOrder(s, Take(s, n))
  {
    var kept := Take(s, n);
    assert s == kept + s[|kept|..];
    forall t ensures AtTime(kept, t) <= AtTime(s, t) {
      AtTimeConcat(kept, s[|kept|..], t);
    }
  }

  /** Sorting and then cutting gives min(n, fetched) events, newest first, drawn from the fetched ones. */
  lemma SortedPrefixShape(fetched: seq<Event>, n: nat)
    ensures var kept := Take(SortByTime(fetched), n);
      && |kept| == Min(n, |fetched|)
      && NewestFirst(kept)
      && multiset(kept) <= multiset(fetched)
  {
    var combined := SortByTime(fetched);
    var kept := Take(combined, n);
    SortPermutes(fetched);
    assert combined == kept + combined[|kept|..];
    assert multiset(combined) == multiset(kept) + multiset(combined[|kept|..]);
  }

  /** Sorting and then cutting to n >= 1 keeps the newest fetched events. */
  lemma SortedPrefixKeepsNewest(fetched: seq<Event>, n: nat)
    requires n >= 1
    ensures NoNewerLeftOut(fetched, Take(SortByTime(fetched), n))
  {
    var combined := SortByTime(fetched);
    SortPermutes(fetched);
    TakeLeavesNoNewer(combined, n);
  }

  /** Sorting and then cutting keeps events of equal time in fetched order. */
  lemma SortedPrefixTieOrder(fetched: seq<Event>, n: nat)
    ensures KeepsTieOrder(fetched, Take(SortByTime(fetched), n))
  {
    var combined := SortByTime(fetched);
    TakePrefixAtTime(combined, n);
    forall t ensures AtTime(combined, t) == AtTime(fetched, t) {
      SortStable(fetched, t);
    }
  }

  /** Cutting both streams to n and then their union to n keeps min(n, calls + offers). */
  lemma FetchedCount(n: nat, calls: nat, offers: nat)
    ensures Min(n, Min(n, calls) + Min(n, offers)) == Min(n, calls + offers)
  {
  }

  /**
   * The events that reach the timeline for a limit n >= 1: the n newest of
   * the fetched calls and offers, newest first. Every fetched event left out
   * is no newer than the last one kept, and events of equal time keep their
   * fetched order (calls before offers).
   */
  function Merged(n: nat, calls: seq<Event>, offers: seq<Event>): (r: seq<Event>)
    requires n >= 1
    ensures |r| == Min(n, |calls| + |offers|)
    ensures NewestFirst(r)
    ensures multiset(r) <= multiset(Take(calls, n) + Take(offers, n))
    ensures NoNewerLeftOut(Take(calls, n) + Take(offers, n), r)
    ensures KeepsTieOrder(Take(calls, n) + Take(offers, n), r)
  {
    var fetched := Take(calls, n) + Take(offers, n);
    FetchedCount(n, |calls|, |offers|);
    SortedPrefixShape(fetched, n);
    SortedPrefixKeepsNewest(fetched, n);
    SortedPrefixTieOrder(fetched, n);
    Take(SortByTime(fetched), n)
  }

  lemma InTake(s: seq<Event>, n: nat, e: Event)
    requires e in Take(s, n)
    ensures e in s
  {
    var i :| 0 <= i < |Take(s, n)| && Take(s, n)[i] == e;
    assert s[i] == e;
  }

  /** Every merged event is one of the fetched calls or offers. */
  lemma MergedFromInputs(n: nat, calls: seq<Event>, offers: seq<Event>)
    requires n >= 1
    ensures forall e :: e in Merged(n, calls, offers) ==> e in calls || e in offers
  {
    var r := Merged(n, calls, offers);
    var tc, to := Take(calls, n), Take(offers, n);
    forall e | e in r ensures e in calls || e in offers {
      assert e in multiset(r);
      assert e in multiset(tc + to);
      assert e in tc + to;
      if e in tc {
        InTake(calls, n, e);
      } else {
        InTake(offers, n, e);
      }
    }
  }

  /**
   * The timeline item of an event. Calls: "call-<id>", a title that depends
   * on completion, a description by priority conversion > interest > neither.
   * Offers: "offer-<id>", a fixed title, "<provider> ofertó en <tender>".
   */
  function FormatEvent(e: Event): (item: ActivityItem)
    ensures item.Time() == e.createdAt
    ensures e.CallEvent? <==> item.CallItem?
    ensures e.CallEvent? ==> item.id == "call-" + NatToString(e.id)
    ensures e.OfferEvent? ==> item.id == "offer-" + NatToString(e.id)
    ensures e.CallEvent? ==>
      (item.title == "Llamada con " + e.entityName <==> e.status == "completada")
    ensures e.CallEvent? ==>
      && (item.description == "Gener\U{F3} una oferta" <==> Truthy(e.conversion))
      && (item.description == "Interesado" <==> !Truthy(e.conversion) && Truthy(e.interested))
      && (item.description == "No interesado/Ocupado" <==> !Truthy(e.conversion) && !Truthy(e.interested))
  {
    match e
    case CallEvent(id, t, name, status, interested, conversion) =>
      CallItem(
        "call-" + NatToString(id),
        if status == "completada" then "Llamada con " + name else "Intento de llamada a " + name,
        if Truthy(conversion) then "Gener\U{F3} una oferta"
        else if Truthy(interested) then "Interesado"
        else "No interesado/Ocupado",
        t, status)
    case OfferEvent(id, t, name, amount, tender) =>
      OfferItem("offer-" + NatToString(id), "Nueva oferta recibida", name + " ofert\U{F3} en " + tender, t, amount)
  }

  /**
   * `getRecentActivity(limit)` after its two queries. `calls` and `offers` are
   * the full streams in the store's newest-first order; each query keeps the
   * first n of its stream. A negative n makes the queries fail.
   */
  function RecentActivity(limitArg: Option<int>, calls: seq<Event>, offers: seq<Event>)
    : (r: Result<seq<ActivityItem>, QueryError>)
    ensures r.Failure? <==> ActivityLimit(limitArg) < 0
    ensures r.Success? ==> |r.value| == Min(ActivityLimit(limitArg), |calls| + |offers|)
    ensures r.Success? ==> forall i, j :: 0 <= i < j < |r.value| ==> r.value[i].Time() >= r.value[j].Time()
    ensures r.Success? ==> forall i :: 0 <= i < |r.value| ==>
      r.value[i] == FormatEvent(Merged(ActivityLimit(limitArg), calls, offers)[i])
  {
    var n := ActivityLimit(limitArg);
    if n < 0 then Failure(NegativeLimit)
    else
      var merged := Merged(n, calls, offers);
      Success(seq(|merged|, i requires 0 <= i < |merged| => FormatEvent(merged[i])))
  }

  /** A call and an offer at the same time, limit 1: the call is kept, as it comes first. */
  lemma TieKeepsCallFirst(c: Event, o: Event)
    requires c.CallEvent? && o.OfferEvent? && c.createdAt == o.createdAt
    ensures Merged(1, [c], [o]) == [c]
  {
    var r := Merged(1, [c], [o]);
    var t := c.createdAt;
    assert [c] + [o] == [c, o];
    assert AtTime([c, o], t) == [c, o] by {
      assert [o][1..] == [] && AtTime([o], t) == [o];
      assert [c, o][1..] == [o];
    }
    assert AtTime(r, t) == [r[0]] by {
      assert r[1..] == [];
      assert r[0] in multiset([c, o]);
    }
  }

  /** Two calls at 20 and 10 and two offers at 25 and 15, limit 3: the times 25, 20, 15. */
  lemma MergeScenario(c0: Event, c1: Event, o0: Event, o1: Event)
    requires c0.createdAt == 20 && c1.createdAt == 10 && o0.createdAt == 25 && o1.createdAt == 15
    ensures Merged(3, [c0, c1], [o0, o1]) == [o0, c0, o1]
  {
    assert Take([c0, c1], 3) + Take([o0, o1], 3) == [c0, c1, o0, o1];
    assert SortByTime([o0, o1]) == [o0, o1] by {
      assert [o0, o1][1..] == [o1] && [o1][1..] == [];
    }
    assert SortByTime([c1, o0, o1]) == [o0, o1, c1] by {
      assert [c1, o0, o1][1..] == [o0, o1];
      assert [o0, o1][1..] == [o1] && [o1][1..] == [];
      assert InsertByTime(c1, [o1]) == [o1, c1];
    }
    assert SortByTime([c0, c1, o0, o1]) == [o0, c0, o1, c1] by {
      assert [c0, c1, o0, o1][1..] == [c1, o0, o1];
      assert [o0, o1, c1][1..] == [o1, c1];
      assert InsertByTime(c0, [o1, c1]) == [c0, o1, c1];
    }
    assert Take([o0, c0, o1, c1], 3) == [o0, c0, o1];
  }
}
