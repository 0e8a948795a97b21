/** The player picker's list for a season: the (player_name, player_id)
    pairs of the season's events with duplicates and incomplete pairs
    dropped, ordered by name. Names compare as Python compares strings:
    character by character on code points, a proper prefix first. */
module PlayerList {
  import opened Events

  datatype Player = Player(name: string, id: int)

  type Pair = (Option<string>, Option<int>)

  predicate NameLe(a: string, b: string)
  {
    |a| == 0 || (|b| > 0 && (a[0] < b[0] || (a[0] == b[0] && NameLe(a[1..], b[1..]))))
  }

  lemma {:induction false} NameLeTotal(a: string, b: string)
    ensures NameLe(a, b) || NameLe(b, a)
  {
    if |a| > 0 && |b| > 0 && a[0] == b[0] {
      NameLeTotal(a[1..], b[1..]);
    }
  }

  lemma {:induction false} NameLeTransitive(a: string, b: string, c: string)
    requires NameLe(a, b) && NameLe(b, c)
    ensures NameLe(a, c)
  {
    if |a| > 0 && a[0] == b[0] && b[0] == c[0] {
      NameLeTransitive(a[1..], b[1..], c[1..]);
    }
  }

  predicate Distinct<T(==)>(s: seq<T>)
  {
    forall i, j :: 0 <= i < j < |s| ==> s[i] != s[j]
  }

  predicate SortedByName(s: seq<Player>)
  {
    forall i, j :: 0 <= i < j < |s| ==> NameLe(s[i].name, s[j].name)
  }

  /** The two columns the picker is built from, row by row. */
  function Pairs(all: seq<Event>): seq<Pair>
  {
    seq(|all|, i requires 0 <= i < |all| => (all[i].playerName, all[i].playerId))
  }

  /** Each value once, at its first occurrence (pandas `drop_duplicates`; an
      empty cell equals an empty cell). */
  function Dedup(s: seq<Pair>): (r: seq<Pair>)
    ensures forall x :: x in r <==> x in s
    ensures Distinct(r)
  {
    if s == [] then []
    else
      var r := Dedup(s[..|s| - 1]);
      assert forall x :: x in s <==> x in s[..|s| - 1] || x == s[|s| - 1];
      if s[|s| - 1] in r then r else r + [s[|s| - 1]]
  }

  /** The complete pairs (pandas `dropna`). */
  function DropNulls(s: seq<Pair>): (r: seq<Player>)
    ensures forall p :: p in r <==> (Some(p.name), Some(p.id)) in s
    ensures Distinct(s) ==> Distinct(r)
  {
    if s == [] then []
    else
      var rest := DropNulls(s[1..]);
      assert forall x :: x in s <==> x == s[0] || x in s[1..];
      assert Distinct(s) ==> Distinct(s[1..]) && s[0] !in s[1..];
      match s[0]
      case (Some(n), Some(i)) => [Player(n, i)] + rest
      case _ => rest
  }

  function Insert(p: Player, s: seq<Player>): seq<Player>
  {
    if s == [] then [p]
    else if NameLe(p.name, s[0].name) then [p] + s
    else [s[0]] + Insert(p, s[1..])
  }

  /** Insertion sort by name. `Insert` puts an element before the first entry
      whose name is not smaller, so entries with equal names keep their input
      order. The result is in name order and holds exactly the elements it is
      given, as many times as given. */
  function SortByName(s: seq<Player>): (r: seq<Player>)
    ensures SortedByName(r)
    ensures multiset(r) == multiset(s)
  {
    if s == [] then []
    else
      var rest := SortByName(s[1..]);
      InsertSorted(s[0], rest);
      InsertPermutes(s[0], rest);
      assert s == [s[0]] + s[1..];
      Insert(s[0], rest)
  }

  lemma {:induction false} InsertPermutes(p: Player, s: seq<Player>)
    ensures multiset(Insert(p, s)) == multiset(s) + multiset{p}
  {
    if s != [] && !NameLe(p.name, s[0].name) {
      InsertPermutes(p, s[1..]);
      assert s == [s[0]] + s[1..];
    }
  }

  lemma {:induction false} InsertSorted(p: Player, s: seq<Player>)
    requires SortedByName(s)
    ensures SortedByName(Insert(p, s))
  {
    if s == [] {
    } else if NameLe(p.name, s[0].name) {
      var r := [p] + s;
      forall i, j | 0 <= i < j < |r| ensures NameLe(r[i].name, r[j].name) {
        if i == 0 && j > 1 {
          NameLeTransitive(p.name, s[0].name, s[j - 1].name);
        }
      }
    } else {
      NameLeTotal(p.name, s[0].name);
      InsertSorted(p, s[1..]);
      InsertPermutes(p, s[1..]);
      var t := Insert(p, s[1..]);
      var r := [s[0]] + t;
      assert r == Insert(p, s);
      forall i, j | 0 <= i < j < |r| ensures NameLe(r[i].name, r[j].name) {
        if i == 0 {
          assert r[j] in multiset(t);
          assert r[j] == p || r[j] in s[1..];
        }
      }
    }
  }

  lemma {:induction false} InsertDistinct(p: Player, s: seq<Player>)
    requires Distinct(s) && p !in s
    ensures Distinct(Insert(p, s))
  {
    InsertPermutes(p, s);
    if s != [] && !NameLe(p.name, s[0].name) {
      InsertDistinct(p, s[1..]);
      InsertPermutes(p, s[1..]);
      var t := Insert(p, s[1..]);
      assert s[0] !in t by {
        assert s[0] != p && s[0] !in s[1..];
        assert multiset(t)[s[0]] == 0;
      }
      var r := [s[0]] + t;
      forall i, j | 0 <= i < j < |r| ensures r[i] != r[j] {
        if i == 0 {
          assert r[j] in t;
        }
      }
    }
  }

  lemma DistinctTail<T>(s: seq<T>)
    requires s != [] && Distinct(s)
    ensures Distinct(s[1..]) && s[0] !in s[1..]
  {
    forall i, j | 0 <= i < j < |s[1..]| ensures s[1..][i] != s[1..][j] {
      assert s[i + 1] != s[j + 1];
    }
    forall j | 0 <= j < |s[1..]| ensures s[1..][j] != s[0] {
      assert s[0] != s[j + 1];
    }
  }

  /** Sorting keeps a duplicate-free list duplicate-free. */
  lemma {:induction false} SortByNameDistinct(s: seq<Player>)
    requires Distinct(s)
    ensures Distinct(SortByName(s))
  {
    if s != [] {
      DistinctTail(s);
      SortByNameDistinct(s[1..]);
      assert s[0] !in SortByName(s[1..]) by {
        assert multiset(SortByName(s[1..]))[s[0]] == 0;
      }
      InsertDistinct(s[0], SortByName(s[1..]));
    }
  }

  /** Some event of the season was made by the player under this id. */
  ghost predicate IsPlayerOf(p: Player, all: seq<Event>)
  {
    exists e :: e in all && e.playerName == Some(p.name) && e.playerId == Some(p.id)
  }

  /** The picker's list for a season's events: in name order, no pair twice,
      and exactly the complete pairs of the two columns. */
  function PlayerOptions(all: seq<Event>): (r: seq<Player>)
    ensures SortedByName(r)
    ensures Distinct(r)
    ensures forall p :: p in r <==> (Some(p.name), Some(p.id)) in Pairs(all)
  {
    var complete := DropNulls(Dedup(Pairs(all)));
    SortByNameDistinct(complete);
    var r := SortByName(complete);
    assert forall p :: p in r <==> p in multiset(r);
    r
  }

  /** The list holds exactly the pairs some event has with both the name and
      the id present. */
  lemma PlayerOptionsCorrect(all: seq<Event>)
    ensures forall p :: p in PlayerOptions(all) <==> IsPlayerOf(p, all)
  {
    var pairs := Pairs(all);
    forall p: Player ensures (Some(p.name), Some(p.id)) in pairs <==> IsPlayerOf(p, all) {
      if (Some(p.name), Some(p.id)) in pairs {
        var i :| 0 <= i < |pairs| && pairs[i] == (Some(p.name), Some(p.id));
        assert all[i] in all;
      }
      if IsPlayerOf(p, all) {
        var e :| e in all && e.playerName == Some(p.name) && e.playerId == Some(p.id);
        var i :| 0 <= i < |all| && all[i] == e;
        assert pairs[i] == (Some(p.name), Some(p.id));
      }
    }
  }

  /** A repeated pair keeps only its first position. */
  lemma DedupExample(p0: Pair, p1: Pair, p3: Pair)
    requires p0 != p1 && p0 != p3 && p1 != p3
    ensures Dedup([p0, p1, p0, p3]) == [p0, p1, p3]
  {
    var s := [p0, p1, p0, p3];
    assert s[..1][..0] == [];
    assert s[..2][..1] == s[..1];
    assert s[..3][..2] == s[..2];
    assert s[..|s| - 1] == s[..3];
    assert Dedup(s[..1]) == [p0];
    assert Dedup(s[..2]) == [p0, p1];
    assert Dedup(s[..3]) == [p0, p1];
  }

  /** Duplicated rows and rows with an empty name or id do not show up, and
      the rest come out in name order. */
  lemma PlayerOptionsExample(a: Event, b: Event, c: Event)
    requires a.playerName == Some("Rashford") && a.playerId == Some(7)
    requires b.playerName == Some("Bruno") && b.playerId == Some(8)
    requires c.playerName == None && c.playerId == Some(9)
    ensures PlayerOptions([a, c, a, b]) == [Player("Bruno", 8), Player("Rashford", 7)]
  {
    var p0, p1, p3 := (a.playerName, a.playerId), (c.playerName, c.playerId), (b.playerName, b.playerId);
    assert Pairs([a, c, a, b]) == [p0, p1, p0, p3];
    DedupExample(p0, p1, p3);
    var complete := [Player("Rashford", 7), Player("Bruno", 8)];
    assert DropNulls([p3]) == [Player("Bruno", 8)] by { assert [p3][1..] == []; }
    assert DropNulls([p1, p3]) == [Player("Bruno", 8)] by { assert [p1, p3][1..] == [p3]; }
    assert DropNulls([p0, p1, p3]) == complete by { assert [p0, p1, p3][1..] == [p1, p3]; }
    assert SortByName(complete[1..]) == [Player("Bruno", 8)];
    assert NameLe("Bruno", "Rashford");
  }
}
