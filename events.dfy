/** Match events and the row selections the dashboard builds from them.

    An event table is a sequence of events in file order. Every selection the
    dashboard makes is a boolean mask over a table's columns; selecting keeps
    the rows where the mask holds, in their original order. Columns that may
    be empty in the data are `Option`s: a comparison with an empty cell is
    false, except `!=`, which is true. */
module Events {
  import PP = ProgressivePass

  datatype Option<T> = None | Some(value: T)

  /** One row of a season's event table. */
  datatype Event = Event(
    playerName: Option<string>,
    playerId: Option<int>,
    typeName: string,
    outcome: Option<string>,
    period: Option<string>,
    x: real,
    y: real,
    endX: Option<real>,
    endY: Option<real>,
    recipient: Option<string>)

  /** The progressive-pass rule applied to a row; a row without an end point
      is not progressive (every comparison with a missing value is false). */
  predicate IsProgressiveEvent(e: Event)
    ensures e.endX.None? || e.endY.None? ==> !IsProgressiveEvent(e)
    ensures IsProgressiveEvent(e) ==>
      && e.x > PP.AttackingStart && e.endX.value > e.x
      && PP.SqDistanceToGoal(e.endX.value, e.endY.value) < PP.SqDistanceToGoal(e.x, e.y)
  {
    && e.endX.Some?
    && e.endY.Some?
    && PP.IsProgressive(e.x, e.y, e.endX.value, e.endY.value)
  }

  /** The row masks the dashboard uses. */
  datatype Mask =
    | PlayerIs(name: string)
    | TypeIs(typeName: string)
    | RecipientIs(recipientName: string)
    | OutcomeIs(outcomeName: string)
    | PeriodIsNot(periodName: string)
    | XAtLeast(bound: real)
    | EndXBeyond(margin: real)
    | Progressive
    | And(left: Mask, right: Mask)

  predicate Holds(m: Mask, e: Event)
  {
    match m
    case PlayerIs(n) => e.playerName == Some(n)
    case TypeIs(t) => e.typeName == t
    case RecipientIs(n) => e.recipient == Some(n)
    case OutcomeIs(o) => e.outcome == Some(o)
    case PeriodIsNot(p) => e.period != Some(p)
    case XAtLeast(b) => e.x >= b
    case EndXBeyond(d) => e.endX.Some? && e.endX.value > e.x + d
    case Progressive => IsProgressiveEvent(e)
    case And(a, b) => Holds(a, e) && Holds(b, e)
  }

  /** On a row whose nullable cells are all empty, every equality and
      ordering test fails and the inequality test succeeds, as comparisons
      with NaN do. */
  lemma EmptyCellComparisons(e: Event, name: string, margin: real)
    requires e.playerName.None? && e.recipient.None? && e.outcome.None?
    requires e.period.None? && e.endX.None? && e.endY.None?
    ensures !Holds(PlayerIs(name), e) && !Holds(RecipientIs(name), e) && !Holds(OutcomeIs(name), e)
    ensures Holds(PeriodIsNot(name), e)
    ensures !Holds(EndXBeyond(margin), e) && !Holds(Progressive, e)
    ensures !Holds(And(PlayerIs(name), TypeIs(e.typeName)), e)
  {
  }

  /** The rows of `s` on which `m` holds, in their order in `s`. */
  function Select(s: seq<Event>, m: Mask): (r: seq<Event>)
    ensures |r| <= |s|
    ensures forall e :: e in r <==> e in s && Holds(m, e)
  {
    if s == [] then []
    else (if Holds(m, s[0]) then [s[0]] else []) + Select(s[1..], m)
  }

  /** A selection holds each row on which the mask holds as many times as
      the table does, and no other row: equal rows are all kept, so the
      selection's length is the number of matching rows of the table. */
  lemma {:induction false} SelectCounts(s: seq<Event>, m: Mask, e: Event)
    ensures multiset(Select(s, m))[e] == if Holds(m, e) then multiset(s)[e] else 0
    decreases |s|
  {
    if s != [] {
      SelectCounts(s[1..], m, e);
      assert s == [s[0]] + s[1..];
    }
  }

  /** Two equal matching rows are both kept: a selection counts rows, not
      distinct values. */
  lemma DuplicateRowsCounted(e: Event, m: Mask)
    requires Holds(m, e)
    ensures |Select([e, e], m)| == 2
  {
    SelectCounts([e, e], m, e);
    assert multiset([e, e])[e] == 2;
  }

  /** `a` is `b` with some elements left out, the rest in their order. */
  predicate IsSubsequence(a: seq<Event>, b: seq<Event>)
    decreases |b|
  {
    if a == [] then true
    else if b == [] then false
    else (a[0] == b[0] && IsSubsequence(a[1..], b[1..])) || IsSubsequence(a, b[1..])
  }

  /** A selection keeps the table's order: it is a subsequence of the table. */
  lemma {:induction false} SelectIsSubsequence(s: seq<Event>, m: Mask)
    ensures IsSubsequence(Select(s, m), s)
    decreases |s|
  {
    if s != [] {
      SelectIsSubsequence(s[1..], m);
      var rest := Select(s[1..], m);
      if Holds(m, s[0]) {
        assert Select(s, m) == [s[0]] + rest;
        assert ([s[0]] + rest)[1..] == rest;
      } else {
        assert Select(s, m) == rest;
        assert rest == [] || IsSubsequence(rest, s[1..]);
      }
    }
  }

  /** Selecting twice is selecting once with both masks. */
  lemma {:induction false} SelectTwice(s: seq<Event>, a: Mask, b: Mask)
    ensures Select(Select(s, a), b) == Select(s, And(a, b))
    decreases |s|
  {
    if s != [] {
      SelectTwice(s[1..], a, b);
      var head := if Holds(a, s[0]) then [s[0]] else [];
      assert Select(s, a) == head + Select(s[1..], a);
      SelectAppend(head, Select(s[1..], a), b);
    }
  }

  lemma {:induction false} SelectAppend(s: seq<Event>, t: seq<Event>, m: Mask)
    ensures Select(s + t, m) == Select(s, m) + Select(t, m)
    decreases |s|
  {
    if s == [] {
      assert s + t == t;
    } else {
      assert (s + t)[1..] == s[1..] + t;
      SelectAppend(s[1..], t, m);
    }
  }

  /** A mask that holds on no row selects nothing. */
  lemma {:induction false} SelectNone(s: seq<Event>, m: Mask)
    requires forall i :: 0 <= i < |s| ==> !Holds(m, s[i])
    ensures Select(s, m) == []
    decreases |s|
  {
    if s != [] {
      assert !Holds(m, s[0]);
      SelectNone(s[1..], m);
    }
  }

  /** Two masks that agree on every row of a table select the same rows. */
  lemma {:induction false} SelectAgreeing(s: seq<Event>, a: Mask, b: Mask)
    requires forall i :: 0 <= i < |s| ==> (Holds(a, s[i]) <==> Holds(b, s[i]))
    ensures Select(s, a) == Select(s, b)
    decreases |s|
  {
    if s != [] {
      assert Holds(a, s[0]) <==> Holds(b, s[0]);
      SelectAgreeing(s[1..], a, b);
    }
  }

  /** The order in which two selections are applied does not matter. */
  lemma SelectCommutes(s: seq<Event>, a: Mask, b: Mask)
    ensures Select(Select(s, a), b) == Select(Select(s, b), a)
  {
    SelectTwice(s, a, b);
    SelectTwice(s, b, a);
    SelectAgreeing(s, And(a, b), And(b, a));
  }

  /** Narrowing a table first never adds rows to a later selection. */
  lemma SelectNarrowed(s: seq<Event>, a: Mask, b: Mask)
    ensures |Select(Select(s, a), b)| <= |Select(s, b)|
  {
    SelectCommutes(s, a, b);
  }

  /** The rows with two different outcomes are disjoint, so their counts add
      up to at most the table's length. */
  lemma {:induction false} OutcomeCountsBounded(s: seq<Event>, o1: string, o2: string)
    requires o1 != o2
    ensures |Select(s, OutcomeIs(o1))| + |Select(s, OutcomeIs(o2))| <= |s|
    decreases |s|
  {
    if s != [] {
      OutcomeCountsBounded(s[1..], o1, o2);
    }
  }

  /** Likewise for three different event types. */
  lemma {:induction false} TypeCountsBounded(s: seq<Event>, t1: string, t2: string, t3: string)
    requires t1 != t2 && t1 != t3 && t2 != t3
    ensures |Select(s, TypeIs(t1))| + |Select(s, TypeIs(t2))| + |Select(s, TypeIs(t3))| <= |s|
    decreases |s|
  {
    if s != [] {
      TypeCountsBounded(s[1..], t1, t2, t3);
    }
  }
}
