/**
 Smoothed provider health and the order it gives (backend/services/orchestrator.go).
 */
module ProviderHealth {
  import opened Sorting

  const DEFAULT_SCORE := 1.0
  const MAX_SCORE := 1.5
  const MIN_SCORE := 0.05
  const SMOOTHING := 0.22

  datatype Outcome = Success | Transient | Permanent {
    function Target(): real {
      match this
      case Success => 1.2
      case Transient => 0.35
      case Permanent => 0.15
    }
  }

  function Clamp(v: real): real {
    if v < MIN_SCORE then MIN_SCORE else if v > MAX_SCORE then MAX_SCORE else v
  }

  function Blend(current: real, target: real): real {
    var from := if current <= 0.0 then DEFAULT_SCORE else current;
    Clamp((1.0 - SMOOTHING) * from + SMOOTHING * target)
  }

  /** The score after a history of outcomes. */
  function Health(history: seq<Outcome>): real {
    if history == [] then DEFAULT_SCORE
    else Blend(Health(history[..|history| - 1]), history[|history| - 1].Target())
  }

  /** Whatever happened, the score stays between the targets, so the clamp never acts. */
  lemma {:induction false} HealthInRange(history: seq<Outcome>)
    ensures 0.15 <= Health(history) <= 1.2
    ensures history != [] ==>
              Health(history) == 0.78 * Health(history[..|history| - 1]) + 0.22 * history[|history| - 1].Target()
  {
    if history != [] {
      HealthInRange(history[..|history| - 1]);
    }
  }

  lemma {:induction false} HealthSnoc(history: seq<Outcome>, o: Outcome)
    ensures Health(history + [o]) == 0.78 * Health(history) + 0.22 * o.Target()
  {
    assert (history + [o])[..|history|] == history;
    HealthInRange(history + [o]);
  }

  /** Four failures in a row, transient or permanent. */
  predicate Failures(recent: seq<Outcome>) {
    |recent| == 4 && !recent[0].Success? && !recent[1].Success? && !recent[2].Success? && !recent[3].Success?
  }

  lemma {:induction false} AfterFour(history: seq<Outcome>, a: Outcome, b: Outcome, c: Outcome, d: Outcome)
    ensures Health(history + [a, b, c, d]) ==
            0.78 * (0.78 * (0.78 * (0.78 * Health(history) + 0.22 * a.Target()) + 0.22 * b.Target())
                    + 0.22 * c.Target())
            + 0.22 * d.Target()
  {
    hide *;
    HealthSnoc(history, a);
    HealthSnoc(history + [a], b);
    HealthSnoc(history + [a] + [b], c);
    HealthSnoc(history + [a] + [b] + [c], d);
    assert history + [a, b, c, d] == history + [a] + [b] + [c] + [d];
  }

  /** Whatever came before, four failures leave a score below any left by four successes. */
  lemma {:induction false} FourOutcomesDecide(failing: seq<Outcome>, f: seq<Outcome>, healthy: seq<Outcome>)
    requires Failures(f)
    ensures Health(failing + f) < 0.67 < 0.81 < Health(healthy + [Success, Success, Success, Success])
  {
    HealthInRange(failing);
    HealthInRange(healthy);
    assert f == [f[0], f[1], f[2], f[3]];
    AfterFour(failing, f[0], f[1], f[2], f[3]);
    AfterFour(healthy, Success, Success, Success, Success);
  }

  function Repeat(o: Outcome, n: nat): seq<Outcome> { seq(n, _ => o) }

  function Power(n: nat): real { if n == 0 then 1.0 else 0.78 * Power(n - 1) }

  lemma {:induction false} RepeatSnoc(o: Outcome, n: nat)
    ensures Repeat(o, n + 1) == Repeat(o, n) + [o] && Power(n + 1) == 0.78 * Power(n)
  {
  }

  lemma {:induction false} NothingRepeated(o: Outcome)
    ensures Health(Repeat(o, 0)) == 1.0 && Power(0) == 1.0
  {
  }

  lemma {:induction false} HealthOfRepeat(o: Outcome, n: nat)
    ensures Health(Repeat(o, n)) == o.Target() + (1.0 - o.Target()) * Power(n)
  {
    hide *;
    if n > 0 {
      HealthOfRepeat(o, n - 1);
      RepeatSnoc(o, n - 1);
      HealthSnoc(Repeat(o, n - 1), o);
      BlendTowards(o.Target(), Power(n - 1), Power(n));
    } else {
      NothingRepeated(o);
    }
  }

  lemma {:induction false} BlendTowards(t: real, p: real, q: real)
    requires q == 0.78 * p
    ensures 0.78 * (t + (1.0 - t) * p) + 0.22 * t == t + (1.0 - t) * q
  {
  }

  /** Three are not enough: a provider long healthy can fail three times and stay ahead of one just recovering. */
  lemma {:induction false} ThreeDoNotDecide()
    ensures Health(Repeat(Success, 10) + [Transient, Transient, Transient])
            > Health(Repeat(Permanent, 10) + [Success, Success, Success])
  {
    assert Power(2) == 0.6084;
    assert Power(4) == 0.6084 * 0.6084;
    assert 0.37 < Power(4) < 0.3702;
    assert Power(6) == 0.6084 * Power(4);
    assert Power(8) == 0.6084 * Power(6);
    assert Power(10) == 0.6084 * Power(8);
    assert Power(10) < 0.0834;
    HealthOfRepeat(Success, 10);
    HealthOfRepeat(Permanent, 10);
    AfterThree(Repeat(Success, 10), Transient);
    AfterThree(Repeat(Permanent, 10), Success);
  }

  lemma {:induction false} AfterThree(history: seq<Outcome>, o: Outcome)
    ensures Health(history + [o, o, o]) ==
            0.78 * (0.78 * (0.78 * Health(history) + 0.22 * o.Target()) + 0.22 * o.Target()) + 0.22 * o.Target()
  {
    hide *;
    HealthSnoc(history, o);
    HealthSnoc(history + [o], o);
    HealthSnoc(history + [o] + [o], o);
    assert history + [o, o, o] == history + [o] + [o] + [o];
  }

  // ---- The tried order --------------------------------------------------------------------------------

  function Score(health: map<string, real>, name: string): real {
    if name !in health || health[name] <= 0.0 then DEFAULT_SCORE else health[name]
  }

  datatype Candidate = Candidate(provider: string, baseIndex: nat, score: real)

  function ByScore(c: Candidate): Key { Key(-c.score, 0.0) }

  function ByScoreAndIndex(c: Candidate): Key { Key(-c.score, c.baseIndex as real) }

  function Candidates(health: map<string, real>, registry: seq<string>): (items: seq<Candidate>)
    ensures |items| == |registry|
    ensures forall i :: 0 <= i < |registry| ==> items[i] == Candidate(registry[i], i, Score(health, registry[i]))
  {
    seq(|registry|, i requires 0 <= i < |registry| => Candidate(registry[i], i, Score(health, registry[i])))
  }

  function Names(items: seq<Candidate>): (names: seq<string>)
    ensures |names| == |items|
  {
    seq(|items|, i requires 0 <= i < |items| => items[i].provider)
  }

  /** Highest score first; equal scores stay in registration order. */
  function Order(health: map<string, real>, registry: seq<string>): seq<string> {
    Names(Sort(ByScore, Candidates(health, registry)))
  }

  method OrderedProvidersByHealth(health: map<string, real>, registry: seq<string>) returns (ordered: seq<string>)
    ensures ordered == Order(health, registry)
  {
    hide Sort;
    CandidatesOrdered(health, registry);
    TieBreakRedundant(Candidates(health, registry));
    if |registry| <= 1 {
      OrderOfFew(health, registry);
      return registry;
    }
    var items: seq<Candidate> := [];
    for idx := 0 to |registry|
      invariant items == Candidates(health, registry)[..idx]
    {
      items := items + [Candidate(registry[idx], idx, Score(health, registry[idx]))];
    }
    assert items == Candidates(health, registry);
    items := Sort(ByScoreAndIndex, items);
    ordered := [];
    for i := 0 to |items|
      invariant ordered == Names(items)[..i]
    {
      ordered := ordered + [items[i].provider];
    }
  }

  lemma {:induction false} OrderOfFew(health: map<string, real>, registry: seq<string>)
    requires |registry| <= 1
    ensures Order(health, registry) == registry
  {
    var items := Candidates(health, registry);
    if |registry| == 1 {
      assert items[..0] == [] && Sort(ByScore, items) == [items[0]];
    }
  }

  ghost predicate IndexesGrow(items: seq<Candidate>) {
    forall i, j :: 0 <= i < j < |items| ==> items[i].baseIndex < items[j].baseIndex
  }

  lemma {:induction false} CandidatesOrdered(health: map<string, real>, registry: seq<string>)
    ensures IndexesGrow(Candidates(health, registry))
  {
  }

  lemma {:induction false} SameInsert(x: Candidate, s: seq<Candidate>)
    requires forall i :: 0 <= i < |s| ==> s[i].baseIndex < x.baseIndex
    ensures Insert(ByScoreAndIndex, x, s) == Insert(ByScore, x, s)
  {
    if s != [] {
      SameInsert(x, s[1..]);
    }
  }

  /** The comparison by registration index adds nothing to a stable sort. */
  lemma {:induction false} TieBreakRedundant(items: seq<Candidate>)
    requires IndexesGrow(items)
    ensures Sort(ByScoreAndIndex, items) == Sort(ByScore, items)
  {
    if items != [] {
      var front, last := items[..|items| - 1], items[|items| - 1];
      TieBreakRedundant(front);
      SortFacts(ByScore, front);
      var s := Sort(ByScore, front);
      forall i | 0 <= i < |s|
        ensures s[i].baseIndex < last.baseIndex
      {
        assert s[i] in multiset(s);
        assert s[i] in front;
      }
      SameInsert(last, s);
      hide Insert, IndexesGrow;
    }
  }

  /** The tried order is a permutation of the registry, best score first, stable. */
  lemma {:induction false} OrderFacts(health: map<string, real>, registry: seq<string>)
    ensures |Order(health, registry)| == |registry|
    ensures multiset(Order(health, registry)) == multiset(registry)
    ensures forall i, j :: 0 <= i < j < |registry| ==>
              Score(health, Order(health, registry)[i]) >= Score(health, Order(health, registry)[j])
    ensures var sorted := Sort(ByScore, Candidates(health, registry));
            forall i, j :: 0 <= i < j < |sorted| && sorted[i].score == sorted[j].score ==>
              sorted[i].baseIndex < sorted[j].baseIndex
  {
    var items := Candidates(health, registry);
    var sorted := Sort(ByScore, items);
    SortFacts(ByScore, items);
    SortFacts(ByScoreAndIndex, items);
    CandidatesOrdered(health, registry);
    TieBreakRedundant(items);
    NamesPermuted(items);
    assert Names(items) == registry;
    SortedScores(health, registry, sorted);
    SortedIndexes(items, sorted);
    hide Sort, Names, Candidates;
  }

  lemma {:induction false} NamesConcat(a: seq<Candidate>, b: seq<Candidate>)
    ensures Names(a + b) == Names(a) + Names(b)
  {
  }

  lemma {:induction false} InsertNames(x: Candidate, s: seq<Candidate>)
    ensures multiset(Names(Insert(ByScore, x, s))) == multiset(Names(s)) + multiset{x.provider}
  {
    NamesConcat([x], s);
    if s != [] {
      InsertNames(x, s[1..]);
      assert s == [s[0]] + s[1..];
      NamesConcat([s[0]], s[1..]);
      NamesConcat([s[0]], Insert(ByScore, x, s[1..]));
    }
    assert Names([x]) == [x.provider];
    assert s == [] ==> Names(s) == [];
    hide Names;
  }

  lemma {:induction false} NamesPermuted(s: seq<Candidate>)
    ensures multiset(Names(Sort(ByScore, s))) == multiset(Names(s))
  {
    if s != [] {
      var front, last := s[..|s| - 1], s[|s| - 1];
      NamesPermuted(front);
      InsertNames(last, Sort(ByScore, front));
      assert s == front + [last];
      NamesConcat(front, [last]);
      assert Names([last]) == [last.provider];
      hide Names, Insert;
    }
  }

  lemma {:induction false} SortedScores(health: map<string, real>, registry: seq<string>, sorted: seq<Candidate>)
    requires multiset(sorted) == multiset(Candidates(health, registry)) && |sorted| == |registry|
             && Sorted(ByScore, sorted)
    ensures forall i, j :: 0 <= i < j < |sorted| ==> Score(health, Names(sorted)[i]) >= Score(health, Names(sorted)[j])
  {
    forall i | 0 <= i < |sorted|
      ensures sorted[i].score == Score(health, Names(sorted)[i])
    {
      assert sorted[i] in multiset(sorted);
      assert sorted[i] in Candidates(health, registry);
    }
    hide Score;
    forall i, j | 0 <= i < j < |sorted|
      ensures Score(health, Names(sorted)[i]) >= Score(health, Names(sorted)[j])
    {
      assert Leq(ByScore(sorted[i]), ByScore(sorted[j]));
    }
  }

  lemma {:induction false} OnlyOnce(items: seq<Candidate>, c: Candidate)
    requires IndexesGrow(items)
    ensures multiset(items)[c] <= 1
  {
    if items != [] {
      var front, last := items[..|items| - 1], items[|items| - 1];
      OnlyOnce(front, c);
      assert items == front + [last];
      if c == last {
        assert c !in front;
      }
    }
  }

  lemma {:induction false} TwiceThere(s: seq<Candidate>, i: nat, j: nat)
    requires i < j < |s| && s[i] == s[j]
    ensures multiset(s)[s[i]] >= 2
  {
    assert s == s[..j] + s[j..];
    assert s[i] in s[..j] && s[i] in s[j..];
  }

  lemma {:induction false} SortedIndexes(items: seq<Candidate>, sorted: seq<Candidate>)
    requires IndexesGrow(items) && multiset(sorted) == multiset(items) && Sorted(ByScoreAndIndex, sorted)
    ensures forall i, j :: 0 <= i < j < |sorted| && sorted[i].score == sorted[j].score ==>
              sorted[i].baseIndex < sorted[j].baseIndex
  {
    forall i, j | 0 <= i < j < |sorted| && sorted[i].score == sorted[j].score
      ensures sorted[i].baseIndex < sorted[j].baseIndex
    {
      assert Leq(ByScoreAndIndex(sorted[i]), ByScoreAndIndex(sorted[j]));
      assert sorted[i] in multiset(sorted) && sorted[j] in multiset(sorted);
      assert sorted[i] in items && sorted[j] in items;
      if sorted[i].baseIndex == sorted[j].baseIndex {
        assert sorted[i] == sorted[j];
        TwiceThere(sorted, i, j);
        OnlyOnce(items, sorted[i]);
      }
    }
  }

  /**
   Whatever came before, a provider that failed its last four calls comes after one that succeeded in its
   last four.
   */
  lemma {:induction false} FailingAfterRecovering(health: map<string, real>, registry: seq<string>, i: nat, j: nat,
                                                  failing: seq<Outcome>, f: seq<Outcome>, healthy: seq<Outcome>)
    requires i < |Order(health, registry)| && j < |Order(health, registry)|
    requires Failures(f) && Score(health, Order(health, registry)[i]) == Health(failing + f)
    requires Score(health, Order(health, registry)[j]) == Health(healthy + [Success, Success, Success, Success])
    ensures j < i
  {
    FourOutcomesDecide(failing, f, healthy);
    hide *;
    if i < j {
      EarlierIsBetter(health, registry, i, j);
    }
  }

  lemma {:induction false} EarlierIsBetter(health: map<string, real>, registry: seq<string>, i: nat, j: nat)
    requires i < j < |Order(health, registry)|
    ensures Score(health, Order(health, registry)[i]) >= Score(health, Order(health, registry)[j])
  {
    OrderFacts(health, registry);
    hide Order, Score;
  }
}
