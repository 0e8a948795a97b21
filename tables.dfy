/** The per-player tables the dashboard selects from a season's events once a
    player is chosen, and the two pass tables derived from the player's
    passes: progressive passes and forward passes. */
module Tables {
  import opened Events
  import PP = ProgressivePass

  /** The event types that get a per-player table of their own. */
  datatype Kind = Interception | Tackle | TakeOn | Pass | Clearance | Aerial | BallRecovery

  /** The `type_display_name` value of each kind. */
  function TypeName(k: Kind): string
  {
    match k
    case Interception => "Interception"
    case Tackle => "Tackle"
    case TakeOn => "TakeOn"
    case Pass => "Pass"
    case Clearance => "Clearance"
    case Aerial => "Aerial"
    case BallRecovery => "BallRecovery"
  }

  /** Every event of the player, whatever its type. */
  function PlayerEvents(all: seq<Event>, player: string): (r: seq<Event>)
    ensures forall e :: e in r <==> e in all && e.playerName == Some(player)
    ensures IsSubsequence(r, all)
  {
    SelectIsSubsequence(all, PlayerIs(player));
    Select(all, PlayerIs(player))
  }

  /** The player's events of one kind. */
  function KindEvents(all: seq<Event>, player: string, k: Kind): (r: seq<Event>)
    ensures forall e :: e in r <==> e in all && e.playerName == Some(player) && e.typeName == TypeName(k)
    ensures IsSubsequence(r, all)
  {
    var m := And(PlayerIs(player), TypeIs(TypeName(k)));
    assert forall e :: Holds(m, e) <==> Holds(PlayerIs(player), e) && Holds(TypeIs(TypeName(k)), e);
    SelectIsSubsequence(all, m);
    Select(all, m)
  }

  /** The passes the player received: selected by recipient alone, not by who
      made them. */
  function ReceivedPasses(all: seq<Event>, player: string): (r: seq<Event>)
    ensures forall e :: e in r <==> e in all && e.recipient == Some(player)
    ensures IsSubsequence(r, all)
  {
    SelectIsSubsequence(all, RecipientIs(player));
    Select(all, RecipientIs(player))
  }

  /** The progressive ones among the given passes, whatever their outcome. */
  function ProgressivePasses(passes: seq<Event>): (r: seq<Event>)
    ensures forall e :: e in r <==> e in passes && IsProgressiveEvent(e)
    ensures forall e :: e in r ==> e.x > PP.AttackingStart && e.endX.Some? && e.endX.value > e.x
    ensures IsSubsequence(r, passes)
  {
    SelectIsSubsequence(passes, Progressive);
    Select(passes, Progressive)
  }

  /** The forward ones among the given passes: those ending more than one unit
      nearer the goal line than they started. */
  function ForwardPasses(passes: seq<Event>): (r: seq<Event>)
    ensures forall e :: e in r <==> e in passes && e.endX.Some? && e.endX.value > e.x + 1.0
    ensures IsSubsequence(r, passes)
  {
    SelectIsSubsequence(passes, EndXBeyond(1.0));
    Select(passes, EndXBeyond(1.0))
  }

  /** A kind's table is the player's events narrowed to that type. */
  lemma KindEventsArePlayerEventsOfType(all: seq<Event>, player: string, k: Kind)
    ensures KindEvents(all, player, k) == Select(PlayerEvents(all, player), TypeIs(TypeName(k)))
  {
    SelectTwice(all, PlayerIs(player), TypeIs(TypeName(k)));
  }

  /** Different kinds have different type names, so no event lies in two
      kinds' tables. */
  lemma KindTablesDisjoint(all: seq<Event>, player: string, k1: Kind, k2: Kind, e: Event)
    requires k1 != k2
    ensures !(e in KindEvents(all, player, k1) && e in KindEvents(all, player, k2))
  {
    assert TypeName(k1) != TypeName(k2) by {
      assert |TypeName(k1)| != |TypeName(k2)| || TypeName(k1)[0] != TypeName(k2)[0]
          || TypeName(k1)[2] != TypeName(k2)[2];
    }
  }

  /** The progressive passes of the player's passes are among the player's
      events of type "Pass". */
  lemma ProgressivePassesArePlayerPasses(all: seq<Event>, player: string, e: Event)
    requires e in ProgressivePasses(KindEvents(all, player, Pass))
    ensures e in all && e.playerName == Some(player) && e.typeName == "Pass"
    ensures IsProgressiveEvent(e)
  {
  }

  /** The forward rule does not include the one-unit boundary: a pass from
      x = 50 to 50.5 is left out and one to 51.1 is kept. */
  lemma ForwardPassExamples(e: Event)
    requires e.x == 50.0
    ensures e.endX == Some(50.5) ==> ForwardPasses([e]) == []
    ensures e.endX == Some(51.1) ==> ForwardPasses([e]) == [e]
    ensures e.endX == Some(51.0) ==> ForwardPasses([e]) == []
  {
    if e.endX == Some(50.5) || e.endX == Some(51.0) {
      assert e !in ForwardPasses([e]);
    }
  }

  /** A pass without an end point is neither forward nor progressive. */
  lemma PassWithoutEndPoint(e: Event)
    requires e.endX == None
    ensures ForwardPasses([e]) == [] && ProgressivePasses([e]) == []
  {
    assert e !in ForwardPasses([e]) && e !in ProgressivePasses([e]);
  }

  /** A pass with an end_x but no end_y is never progressive, yet the forward
      rule reads end_x alone, so it is forward when end_x > x + 1. */
  lemma PassWithoutEndY(e: Event)
    requires e.endY == None
    ensures ProgressivePasses([e]) == []
    ensures e.endX.Some? && e.endX.value > e.x + 1.0 ==> ForwardPasses([e]) == [e]
  {
    assert e !in ProgressivePasses([e]);
  }

  /** Whether a pass is progressive does not depend on its outcome, so a
      failed pass can be progressive. */
  lemma ProgressiveIgnoresOutcome(e: Event, o: Option<string>)
    ensures IsProgressiveEvent(e) <==> IsProgressiveEvent(e.(outcome := o))
    ensures e in ProgressivePasses([e]) <==> e.(outcome := o) in ProgressivePasses([e.(outcome := o)])
  {
  }

  /** The forward and progressive rules are independent: a short pass close
      to goal can be progressive without being forward, and a two-unit pass
      from midfield is forward without being progressive. */
  lemma ForwardAndProgressiveIndependent(e1: Event, e2: Event)
    requires e1.x == 99.0 && e1.y == 50.0 && e1.endX == Some(99.5) && e1.endY == Some(50.0)
    requires e2.x == 40.0 && e2.y == 50.0 && e2.endX == Some(42.0) && e2.endY == Some(50.0)
    ensures e1 in ProgressivePasses([e1]) && e1 !in ForwardPasses([e1])
    ensures e2 in ForwardPasses([e2]) && e2 !in ProgressivePasses([e2])
  {
  }
}
