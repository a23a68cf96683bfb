/** Provider lookup and the opening-hours search of `backend/providers.py`:
    `find_providers`, `provider_is_open_on` and `next_open_slot`. Times are
    minutes since 0001-01-01 00:00, so seconds and microseconds are not modelled. */
module Search {
  import opened Wrappers
  import opened Text
  import opened Seqs
  import opened Calendar
  import opened Hours
  import opened Directory

  // ----- find_providers -----

  /** A provider passes the specialty filter (case-insensitive equality, a missing
      specialty read as empty) and the name filter (case-insensitive substring);
      an absent or empty filter passes everything. */
  predicate Matches(p: Provider, specialty: Option<string>, nameContains: Option<string>)
  {
    && (specialty.None? || specialty.value == "" || LowerStr(p.specialty.GetOr("")) == LowerStr(specialty.value))
    && (nameContains.None? || nameContains.value == "" || Contains(LowerStr(p.name), LowerStr(nameContains.value)))
  }

  /** The providers that pass both filters, in directory order. */
  function Found(ps: seq<Provider>, specialty: Option<string>, nameContains: Option<string>): seq<Provider>
  {
    Filter(ps, (p: Provider) => Matches(p, specialty, nameContains))
  }

  /** `find_providers`: one pass over the directory appending each provider that passes. */
  method FindProviders(ps: seq<Provider>, specialty: Option<string>, nameContains: Option<string>)
    returns (out: seq<Provider>)
    ensures out == Found(ps, specialty, nameContains)
  {
    ghost var keep := (p: Provider) => Matches(p, specialty, nameContains);
    out := [];
    var i := 0;
    while i < |ps|
      invariant i <= |ps|
      invariant out == Filter(ps[..i], keep)
    {
      var p := ps[i];
      assert ps[..i + 1][..i] == ps[..i];
      if Matches(p, specialty, nameContains) {
        out := out + [p];
      }
      i := i + 1;
    }
    assert ps[..|ps|] == ps;
  }

  /** The result keeps directory order and holds exactly the providers that pass both filters. */
  lemma FoundIsOrderedSelection(ps: seq<Provider>, specialty: Option<string>, nameContains: Option<string>, p: Provider)
    ensures IsSubseq(Found(ps, specialty, nameContains), ps)
    ensures p in Found(ps, specialty, nameContains) <==> p in ps && Matches(p, specialty, nameContains)
  {
    FilterIsSubseq(ps, (q: Provider) => Matches(q, specialty, nameContains));
    FilterMembership(ps, (q: Provider) => Matches(q, specialty, nameContains), p);
  }

  /** With no filters every provider is returned, in order. */
  lemma FoundWithoutFilters(ps: seq<Provider>, specialty: Option<string>, nameContains: Option<string>)
    requires specialty.None? || specialty == Some("")
    requires nameContains.None? || nameContains == Some("")
    ensures Found(ps, specialty, nameContains) == ps
  {
    FilterKeepsAll(ps, (q: Provider) => Matches(q, specialty, nameContains));
  }

  // ----- provider_is_open_on -----

  /** `dept.get("hours", [])`. */
  function RulesOf(d: Department): seq<Rule>
  {
    d.hours.GetOr([])
  }

  /** The rule covers moment `t`: same weekday and `start <= hour < end`. */
  predicate Covers(rule: Rule, t: Moment)
  {
    rule.weekday == Weekday(t) && rule.start <= HourOf(t) < rule.end
  }

  /** A provider is open at `t` when its first department has a rule covering `t`;
      a provider without departments is never open. */
  predicate OpenAt(p: Provider, t: Moment)
  {
    |p.departments| > 0 && exists k :: 0 <= k < |RulesOf(p.departments[0])| && Covers(RulesOf(p.departments[0])[k], t)
  }

  /** `provider_is_open_on` with `department_idx = 0`: scans the rules and returns at the first that covers `t`. */
  method ProviderIsOpenOn(p: Provider, t: Moment) returns (open: bool)
    ensures open == OpenAt(p, t)
  {
    if |p.departments| == 0 {
      return false;
    }
    var rules := RulesOf(p.departments[0]);
    var i := 0;
    while i < |rules|
      invariant i <= |rules|
      invariant forall k :: 0 <= k < i ==> !Covers(rules[k], t)
    {
      if rules[i].weekday == Weekday(t) && rules[i].start <= HourOf(t) < rules[i].end {
        return true;
      }
      i := i + 1;
    }
    return false;
  }

  // ----- next_open_slot -----

  /** How many half-hour steps `next_open_slot` tries: a week. */
  const Attempts: nat := 7 * 24 * 2

  /** `dt.replace(minute=0) + timedelta(minutes=30 if dt.minute < 30 else 60)`. */
  function FirstBoundary(t: Moment): Moment
  {
    t - t % 60 + (if t % 60 < 30 then 30 else 60)
  }

  /** The first candidate is the least half-hour boundary strictly after `t`. */
  lemma FirstBoundaryIsNext(t: Moment)
    ensures FirstBoundary(t) % 30 == 0 && t < FirstBoundary(t) <= t + 30
    ensures forall b: Moment :: b % 30 == 0 && t < b ==> FirstBoundary(t) <= b
  {
    var f := FirstBoundary(t);
    assert f == (t / 30 + 1) * 30;
    forall b: Moment | b % 30 == 0 && t < b
      ensures f <= b
    {
      assert b == (b / 30) * 30;
      assert t / 30 < b / 30;
    }
  }

  /** The search loop from candidate `cur` after `tried` attempts: the first open candidate, if any. */
  function SlotSearch(p: Provider, cur: Moment, tried: nat): (r: Option<Moment>)
    requires tried <= Attempts
    decreases Attempts - tried
  {
    if tried == Attempts then None
    else if OpenAt(p, cur) then Some(cur)
    else SlotSearch(p, cur + 30, tried + 1)
  }

  /** `next_open_slot`: the first open candidate, or `t` itself when none in the week is open. */
  function NextSlot(p: Provider, t: Moment): Moment
  {
    match SlotSearch(p, FirstBoundary(t), 0)
    case Some(s) => s
    case None => t
  }

  /** The `k`-th candidate after `cur`. */
  function Candidate(cur: Moment, k: nat): Moment
  {
    cur + 30 * k
  }

  /** Candidate `k` is open and none before it is. */
  predicate FirstOpen(p: Provider, cur: Moment, k: nat)
  {
    OpenAt(p, Candidate(cur, k)) && forall j :: 0 <= j < k ==> !OpenAt(p, Candidate(cur, j))
  }

  /** The search finds nothing exactly when no remaining candidate is open. */
  lemma {:induction false} SlotSearchNone(p: Provider, cur: Moment, tried: nat)
    requires tried <= Attempts
    ensures SlotSearch(p, cur, tried).None? <==> forall k :: 0 <= k < Attempts - tried ==> !OpenAt(p, Candidate(cur, k))
    decreases Attempts - tried
  {
    if tried < Attempts {
      assert Candidate(cur, 0) == cur;
      if !OpenAt(p, cur) {
        SlotSearchNone(p, cur + 30, tried + 1);
        forall k | 0 < k < Attempts - tried
          ensures Candidate(cur, k) == Candidate(cur + 30, k - 1)
        {
        }
        var next := cur + 30;
        forall k | 0 <= k < Attempts - tried - 1
          ensures Candidate(next, k) == Candidate(cur, k + 1)
        {
        }
      }
    }
  }

  /** What the search finds is the first open candidate. */
  lemma {:induction false} SlotSearchSome(p: Provider, cur: Moment, tried: nat)
    requires tried <= Attempts && SlotSearch(p, cur, tried).Some?
    ensures exists k :: 0 <= k < Attempts - tried && SlotSearch(p, cur, tried).value == Candidate(cur, k) && FirstOpen(p, cur, k)
    decreases Attempts - tried
  {
    if OpenAt(p, cur) {
      assert Candidate(cur, 0) == cur && FirstOpen(p, cur, 0);
    } else {
      SlotSearchSome(p, cur + 30, tried + 1);
      var k :| 0 <= k < Attempts - tried - 1 && SlotSearch(p, cur + 30, tried + 1).value == Candidate(cur + 30, k)
        && FirstOpen(p, cur + 30, k);
      assert Candidate(cur + 30, k) == Candidate(cur, k + 1);
      forall j | 0 < j < k + 1
        ensures Candidate(cur, j) == Candidate(cur + 30, j - 1)
      {
      }
      assert Candidate(cur, 0) == cur;
      assert FirstOpen(p, cur, k + 1);
    }
  }

  /** The suggested slot is the first half-hour boundary after `t`, within a week, at which the
      provider is open; when there is none it is `t` itself. */
  lemma NextSlotIsFirstOpen(p: Provider, t: Moment)
    ensures (exists k :: 0 <= k < Attempts && OpenAt(p, Candidate(FirstBoundary(t), k))) ==>
      exists k :: 0 <= k < Attempts && NextSlot(p, t) == Candidate(FirstBoundary(t), k) && FirstOpen(p, FirstBoundary(t), k)
    ensures (forall k :: 0 <= k < Attempts ==> !OpenAt(p, Candidate(FirstBoundary(t), k))) ==> NextSlot(p, t) == t
  {
    SlotSearchNone(p, FirstBoundary(t), 0);
    if SlotSearch(p, FirstBoundary(t), 0).Some? {
      SlotSearchSome(p, FirstBoundary(t), 0);
    }
  }

  /** A found slot lies on a half-hour boundary strictly after `t`, and the provider is open then. */
  lemma NextSlotAfter(p: Provider, t: Moment)
    requires NextSlot(p, t) != t
    ensures NextSlot(p, t) > t && NextSlot(p, t) % 30 == 0 && OpenAt(p, NextSlot(p, t))
  {
    var b := FirstBoundary(t);
    FirstBoundaryIsNext(t);
    SlotSearchSome(p, b, 0);
    var k :| 0 <= k < Attempts && NextSlot(p, t) == Candidate(b, k) && FirstOpen(p, b, k);
    CandidateOnBoundary(b, k);
  }

  lemma CandidateOnBoundary(b: Moment, k: nat)
    requires b % 30 == 0
    ensures Candidate(b, k) % 30 == 0 && Candidate(b, k) >= b
  {
    assert Candidate(b, k) == 30 * (b / 30 + k);
  }

  /** `next_open_slot` with `department_idx = 0`: step through a week of half-hour candidates. */
  method NextOpenSlot(p: Provider, t: Moment) returns (slot: Moment)
    ensures slot == NextSlot(p, t)
  {
    var cur: Moment := t - t % 60 + (if t % 60 < 30 then 30 else 60);
    var tried := 0;
    while tried < Attempts
      invariant tried <= Attempts
      invariant SlotSearch(p, cur, tried) == SlotSearch(p, FirstBoundary(t), 0)
    {
      var open := ProviderIsOpenOn(p, cur);
      if open {
        return cur;
      }
      cur := cur + 30;
      tried := tried + 1;
    }
    return t;
  }
}
