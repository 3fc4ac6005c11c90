/**
 Head-to-head pairs. A pair is a group id shared by two teams; the id is that of one of them. Pairing
 locks and checks both rows before it writes, so each call is one step.
 */
module Versus {
  import opened Lists
  import opened Sets
  import opened Wrappers

  datatype Row = Row(id: int, name: string, group: Option<int>)

  datatype Error = NotEnabled | PairedWithItself | NotFound | AlreadyPaired(team: int) | ManyOpponents

  ghost predicate IdsDistinct(rows: seq<Row>) { forall i, j | 0 <= i < j < |rows| :: rows[i].id != rows[j].id }

  function InGroup(g: int): Row -> bool { (r: Row) => r.group == Some(g) }

  function HasId(id: int): Row -> bool { (r: Row) => r.id == id }

  function OtherThan(id: int): Row -> bool { (r: Row) => r.id != id }

  function Members(rows: seq<Row>, g: int): seq<Row> { Filter(rows, InGroup(g)) }

  function ById(rows: seq<Row>, id: int): Option<Row> {
    var found := Filter(rows, HasId(id));
    if found == [] then None else Some(found[0])
  }

  // ---- Pairing -------------------------------------------------------------------------------

  function Grouping(a: int, b: int): Row -> Row {
    (r: Row) => if r.id == a || r.id == b then r.(group := Some(a)) else r
  }

  function PairError(enabled: bool, rows: seq<Row>, a: int, b: int): Option<Error> {
    if !enabled then Some(NotEnabled)
    else if a == b then Some(PairedWithItself)
    else
      match (ById(rows, a), ById(rows, b))
      case (Some(x), Some(y)) =>
        if x.group.Some? then Some(AlreadyPaired(a)) else if y.group.Some? then Some(AlreadyPaired(b)) else None
      case _ => Some(NotFound)
  }

  /** The table after a request to pair a and b. */
  function Paired(enabled: bool, rows: seq<Row>, a: int, b: int): seq<Row> {
    if PairError(enabled, rows, a, b).Some? then rows else Map(rows, Grouping(a, b))
  }

  /** Every group has two members, one of whom gave it its id. */
  ghost predicate WellPaired(rows: seq<Row>) {
    forall g :: GroupOfTwo(rows, g)
  }

  ghost predicate GroupOfTwo(rows: seq<Row>, g: int) {
    var m := Members(rows, g);
    m == [] || (|m| == 2 && (m[0].id == g || m[1].id == g))
  }

  lemma ByIdMeaning(rows: seq<Row>, id: int)
    ensures ById(rows, id).Some? ==> ById(rows, id).value in rows && ById(rows, id).value.id == id
    ensures ById(rows, id) == None ==> forall r | r in rows :: r.id != id
  {
    FilterMembers(rows, HasId(id));
    var found := Filter(rows, HasId(id));
    if found == [] {
      forall r | r in rows ensures r.id != id { assert HasId(id)(r) ==> r in found; }
    } else {
      assert found[0] in found;
    }
  }

  lemma SameRow(rows: seq<Row>, x: Row, y: Row)
    requires IdsDistinct(rows) && x in rows && y in rows && x.id == y.id
    ensures x == y
  {
    var i :| 0 <= i < |rows| && rows[i] == x;
    var j :| 0 <= j < |rows| && rows[j] == y;
  }

  lemma MembersSnoc(rows: seq<Row>, r: Row, g: int)
    ensures Members(rows + [r], g) == if r.group == Some(g) then Members(rows, g) + [r] else Members(rows, g)
  {
    FilterSnoc(rows, r, InGroup(g));
    if r.group != Some(g) { assert Members(rows + [r], g) == Members(rows, g); }
  }

  /** Neither row to pair is in a group yet. */
  ghost predicate Ungrouped(rows: seq<Row>, a: int, b: int) {
    forall r | r in rows && (r.id == a || r.id == b) :: r.group == None
  }

  lemma {:induction false} OtherGroupsKept(rows: seq<Row>, a: int, b: int, g: int)
    requires Ungrouped(rows, a, b) && g != a
    ensures Members(Map(rows, Grouping(a, b)), g) == Members(rows, g)
  {
    if rows != [] {
      var front, r := rows[..|rows| - 1], rows[|rows| - 1];
      assert rows == front + [r];
      assert r in rows;
      OtherGroupsKept(front, a, b, g);
      MembersSnoc(front, r, g);
      MembersSnoc(Map(front, Grouping(a, b)), Grouping(a, b)(r), g);
    }
  }

  function CountOf(rows: seq<Row>, id: int): nat {
    if rows == [] then 0 else CountOf(rows[..|rows| - 1], id) + (if rows[|rows| - 1].id == id then 1 else 0)
  }

  lemma {:induction false} CountIsOne(rows: seq<Row>, id: int)
    requires IdsDistinct(rows)
    ensures CountOf(rows, id) == if exists r :: r in rows && r.id == id then 1 else 0
  {
    if rows != [] {
      var front, last := rows[..|rows| - 1], rows[|rows| - 1];
      assert rows == front + [last];
      CountIsOne(front, id);
      assert last in rows;
      if r :| r in front && r.id == id {
        assert r in rows;
        var i :| 0 <= i < |front| && front[i] == r;
        assert rows[i] == r;
      } else {
        assert forall r | r in rows :: r in front || r == last;
      }
    }
  }

  lemma {:induction false} NewGroup(rows: seq<Row>, a: int, b: int)
    requires Ungrouped(rows, a, b) && a != b && Members(rows, a) == []
    ensures |Members(Map(rows, Grouping(a, b)), a)| == CountOf(rows, a) + CountOf(rows, b)
    ensures forall r | r in Members(Map(rows, Grouping(a, b)), a) :: r.id == a || r.id == b
  {
    if rows != [] {
      var front, r := rows[..|rows| - 1], rows[|rows| - 1];
      assert rows == front + [r];
      assert r in rows;
      MembersSnoc(front, r, a);
      assert Members(front, a) == [];
      NewGroup(front, a, b);
      MembersSnoc(Map(front, Grouping(a, b)), Grouping(a, b)(r), a);
    }
  }

  lemma {:induction false} IdsKept(rows: seq<Row>, a: int, b: int)
    requires IdsDistinct(rows)
    ensures IdsDistinct(Map(rows, Grouping(a, b)))
  {
  }

  lemma {:induction false} AcceptedRows(enabled: bool, rows: seq<Row>, a: int, b: int)
    requires IdsDistinct(rows) && PairError(enabled, rows, a, b) == None
    ensures a != b && Ungrouped(rows, a, b) && CountOf(rows, a) == 1 && CountOf(rows, b) == 1
  {
    ByIdMeaning(rows, a);
    ByIdMeaning(rows, b);
    CountIsOne(rows, a);
    CountIsOne(rows, b);
    forall r | r in rows && (r.id == a || r.id == b) ensures r.group == None {
      if r.id == a { SameRow(rows, r, ById(rows, a).value); } else { SameRow(rows, r, ById(rows, b).value); }
    }
  }

  lemma NoGroupYet(rows: seq<Row>, a: int, b: int)
    requires WellPaired(rows) && Ungrouped(rows, a, b)
    ensures Members(rows, a) == []
  {
    assert GroupOfTwo(rows, a);
    var m := Members(rows, a);
    FilterMembers(rows, InGroup(a));
    forall i | 0 <= i < |m| ensures m[i].id != a {
      assert m[i] in m;
      assert m[i] in rows && m[i].group == Some(a);
    }
  }

  /** Whatever is asked for, in every state reached from no pairs, groups stay groups of two. */
  lemma PairingKeepsGroups(enabled: bool, rows: seq<Row>, a: int, b: int)
    requires IdsDistinct(rows) && WellPaired(rows)
    ensures IdsDistinct(Paired(enabled, rows, a, b)) && WellPaired(Paired(enabled, rows, a, b))
  {
    if PairError(enabled, rows, a, b) == None {
      var after := Map(rows, Grouping(a, b));
      AcceptedRows(enabled, rows, a, b);
      IdsKept(rows, a, b);
      NoGroupYet(rows, a, b);
      NewGroup(rows, a, b);
      forall g ensures GroupOfTwo(after, g) {
        if g == a {
          NewGroupHasBoth(after, a, b);
        } else {
          OtherGroupsKept(rows, a, b, g);
          assert GroupOfTwo(rows, g);
        }
      }
    }
  }

  lemma {:induction false} MembersDistinct(rows: seq<Row>, g: int)
    requires IdsDistinct(rows)
    ensures IdsDistinct(Members(rows, g))
  {
    if rows != [] {
      var front, r := rows[..|rows| - 1], rows[|rows| - 1];
      assert rows == front + [r];
      MembersDistinct(front, g);
      MembersSnoc(front, r, g);
      FilterMembers(front, InGroup(g));
      var m := Members(front, g);
      forall i | 0 <= i < |m| ensures m[i].id != r.id {
        assert m[i] in m;
        var k :| 0 <= k < |front| && front[k] == m[i];
        assert rows[k] == m[i];
      }
    }
  }

  lemma NewGroupHasBoth(rows: seq<Row>, a: int, b: int)
    requires IdsDistinct(rows) && |Members(rows, a)| == 2
    requires forall r | r in Members(rows, a) :: r.id == a || r.id == b
    ensures GroupOfTwo(rows, a)
  {
    var m := Members(rows, a);
    MembersDistinct(rows, a);
    assert m[0] in m && m[1] in m && m[0].id != m[1].id;
  }

  datatype Request = Request(a: int, b: int)

  function Run(enabled: bool, rows: seq<Row>, requests: seq<Request>): seq<Row> {
    if requests == [] then rows
    else
      var last := requests[|requests| - 1];
      Paired(enabled, Run(enabled, rows, requests[..|requests| - 1]), last.a, last.b)
  }

  lemma {:induction false} RunKeepsGroups(enabled: bool, rows: seq<Row>, requests: seq<Request>)
    requires IdsDistinct(rows) && forall r | r in rows :: r.group == None
    ensures IdsDistinct(Run(enabled, rows, requests)) && WellPaired(Run(enabled, rows, requests))
  {
    if requests == [] {
      forall g ensures GroupOfTwo(rows, g) { FilterNone(rows, InGroup(g)); }
    } else {
      var last := requests[|requests| - 1];
      RunKeepsGroups(enabled, rows, requests[..|requests| - 1]);
      PairingKeepsGroups(enabled, Run(enabled, rows, requests[..|requests| - 1]), last.a, last.b);
    }
  }

  /** The team stands in the table, and without a pair. */
  ghost predicate IsFree(rows: seq<Row>, id: int) { exists r :: r in rows && r.id == id && r.group == None }

  ghost predicate Exists(rows: seq<Row>, id: int) { exists r :: r in rows && r.id == id }

  lemma FreeById(rows: seq<Row>, id: int)
    requires IdsDistinct(rows)
    ensures ById(rows, id).Some? <==> Exists(rows, id)
    ensures ById(rows, id).Some? && ById(rows, id).value.group == None <==> IsFree(rows, id)
  {
    ByIdMeaning(rows, id);
    forall r | r in rows && r.id == id ensures ById(rows, id) == Some(r) { FoundById(rows, r); }
  }

  /** Pairing succeeds for two different free teams while the mode is on; who is in the way decides the error. */
  lemma PairingOutcome(enabled: bool, rows: seq<Row>, a: int, b: int)
    requires IdsDistinct(rows)
    ensures PairError(enabled, rows, a, b) == None <==> enabled && a != b && IsFree(rows, a) && IsFree(rows, b)
    ensures PairError(enabled, rows, a, b) == Some(NotEnabled) <==> !enabled
    ensures PairError(enabled, rows, a, b) == Some(PairedWithItself) <==> enabled && a == b
    ensures PairError(enabled, rows, a, b) == Some(NotFound) <==> enabled && a != b && !(Exists(rows, a) && Exists(rows, b))
    ensures PairError(enabled, rows, a, b) == Some(AlreadyPaired(a)) <==>
              enabled && a != b && Exists(rows, a) && Exists(rows, b) && !IsFree(rows, a)
  {
    FreeById(rows, a);
    FreeById(rows, b);
  }

  /** Both teams get the id of the first as their group; nobody else changes, and on an error nobody does. */
  lemma {:induction false} PairingStores(enabled: bool, rows: seq<Row>, a: int, b: int)
    ensures var after := Paired(enabled, rows, a, b);
            |after| == |rows| && forall i | 0 <= i < |rows| ::
              after[i] == if PairError(enabled, rows, a, b) == None && (rows[i].id == a || rows[i].id == b)
                          then Row(rows[i].id, rows[i].name, Some(a)) else rows[i]
  {
  }

  // ---- Opponents --------------------------------------------------------------------------------

  function OpponentsOf(rows: seq<Row>, r: Row): seq<Row> {
    match r.group
    case None => []
    case Some(g) => Filter(rows, (x: Row) => x.id != r.id && x.group == Some(g))
  }

  /** get_opponent: one or none; more than one is an error. */
  function GetOpponent(rows: seq<Row>, id: int): Result<Option<Row>, Error> {
    match ById(rows, id)
    case None => Success(None)
    case Some(team) =>
      var found := OpponentsOf(rows, team);
      if |found| > 1 then Failure(ManyOpponents)
      else Success(if found == [] then None else Some(found[0]))
  }

  function Other(m: seq<Row>, r: Row): Row {
    if |m| != 2 then r else if m[0].id == r.id then m[1] else m[0]
  }

  lemma OpponentIsOther(rows: seq<Row>, r: Row, g: int)
    requires IdsDistinct(rows) && r in rows && r.group == Some(g) && |Members(rows, g)| == 2
    ensures OpponentsOf(rows, r) == [Other(Members(rows, g), r)]
    ensures r == Members(rows, g)[0] || r == Members(rows, g)[1]
    ensures Members(rows, g)[0].id != Members(rows, g)[1].id
  {
    var m := Members(rows, g);
    MembersDistinct(rows, g);
    FilterMembers(rows, InGroup(g));
    assert r in m;
    var both := (x: Row) => x.id != r.id && x.group == Some(g);
    FilterTwice(rows, InGroup(g), OtherThan(r.id), both);
    FilterOfTwo(m, r.id);
    assert OpponentsOf(rows, r) == Filter(rows, both);
  }

  lemma {:induction false} FilterOfTwo(m: seq<Row>, id: int)
    requires |m| == 2 && m[0].id != m[1].id && (m[0].id == id || m[1].id == id)
    ensures Filter(m, OtherThan(id)) == [if m[0].id == id then m[1] else m[0]]
  {
    assert m == [m[0]] + [m[1]] && [m[0]] == [] + [m[0]];
    FilterSnoc([m[0]], m[1], OtherThan(id));
    FilterSnoc([], m[0], OtherThan(id));
    assert Filter([], OtherThan(id)) == [];
  }

  lemma FoundById(rows: seq<Row>, r: Row)
    requires IdsDistinct(rows) && r in rows
    ensures ById(rows, r.id) == Some(r)
  {
    ByIdMeaning(rows, r.id);
    if ById(rows, r.id).Some? { SameRow(rows, r, ById(rows, r.id).value); }
  }

  /** Whoever else is in the group: nobody gives nobody, one is the opponent, and more are an error. */
  lemma {:induction false} OpponentsCounted(rows: seq<Row>, r: Row, x: Row)
    requires IdsDistinct(rows) && r in rows && r.group.Some? && x in rows && x.id != r.id && x.group == r.group
    ensures GetOpponent(rows, r.id) ==
            if exists y :: y in rows && y.id != r.id && y.id != x.id && y.group == r.group then Failure(ManyOpponents)
            else Success(Some(x))
  {
    FoundById(rows, r);
    var p := (y: Row) => y.id != r.id && y.group == Some(r.group.value);
    var found := Filter(rows, p);
    assert OpponentsOf(rows, r) == found;
    FilterMembers(rows, p);
    assert x in found;
    if y :| y in rows && y.id != r.id && y.id != x.id && y.group == r.group {
      assert y in found;
    } else {
      OnlyOne(rows, p, x);
    }
  }

  lemma {:induction false} OnlyOne(rows: seq<Row>, p: Row -> bool, x: Row)
    requires IdsDistinct(rows) && x in rows && p(x) && forall y | y in rows && p(y) :: y.id == x.id
    ensures Filter(rows, p) == [x]
  {
    var k :| 0 <= k < |rows| && rows[k] == x;
    assert rows == rows[..k] + ([x] + rows[k + 1..]);
    FilterConcat(rows[..k], [x] + rows[k + 1..], p);
    FilterConcat([x], rows[k + 1..], p);
    FilterNone(rows[..k], p);
    FilterNone(rows[k + 1..], p);
    FilterAll([x], p);
  }

  /** On paired teams get_opponent is an involution without fixed points; on the others it finds nobody. */
  lemma OpponentInvolution(rows: seq<Row>, r: Row)
    requires IdsDistinct(rows) && WellPaired(rows) && r in rows
    ensures r.group == None ==> GetOpponent(rows, r.id) == Success(None)
    ensures r.group.Some? ==>
              && GetOpponent(rows, r.id).Success? && GetOpponent(rows, r.id).value.Some?
              && var y := GetOpponent(rows, r.id).value.value;
                 y in rows && y.id != r.id && y.group == r.group && GetOpponent(rows, y.id) == Success(Some(r))
  {
    FoundById(rows, r);
    if r.group.Some? {
      var g := r.group.value;
      var m := Members(rows, g);
      assert GroupOfTwo(rows, g);
      FilterMembers(rows, InGroup(g));
      assert r in m;
      OpponentIsOther(rows, r, g);
      var y := Other(m, r);
      assert y in m;
      FoundById(rows, y);
      OpponentIsOther(rows, y, g);
    }
  }

  // ---- Grouping a list of teams -------------------------------------------------------------------

  function Grouped(rows: seq<Row>): map<int, seq<Row>> {
    if rows == [] then map[]
    else
      var before, r := Grouped(rows[..|rows| - 1]), rows[|rows| - 1];
      match r.group
      case None => before
      case Some(g) => before[g := (if g in before then before[g] else []) + [r]]
  }

  lemma {:induction false} GroupedMeaning(rows: seq<Row>, g: int)
    ensures g in Grouped(rows) <==> Members(rows, g) != []
    ensures g in Grouped(rows) ==> Grouped(rows)[g] == Members(rows, g)
  {
    if rows != [] {
      var front, r := rows[..|rows| - 1], rows[|rows| - 1];
      assert rows == front + [r];
      GroupedMeaning(front, g);
      MembersSnoc(front, r, g);
    }
  }

  /** The first loop of every listing: a dict of lists, filled row by row. */
  method GroupRows(rows: seq<Row>) returns (groups: map<int, seq<Row>>)
    ensures groups == Grouped(rows)
  {
    groups := map[];
    for i := 0 to |rows|
      invariant groups == Grouped(rows[..i])
    {
      assert rows[..i + 1][..i] == rows[..i];
      var r := rows[i];
      if r.group.Some? {
        var g := r.group.value;
        if g !in groups { groups := groups[g := []]; }
        groups := groups[g := groups[g] + [r]];
      }
    }
    assert rows[..|rows|] == rows;
  }

  datatype Pair = Pair(group: int, a: int, b: int)

  /** No group is listed twice. */
  ghost predicate GroupsOnce(pairs: seq<Pair>) { forall i, j | 0 <= i < j < |pairs| :: pairs[i].group != pairs[j].group }

  /** The pairs listed are exactly the groups of two. */
  ghost predicate ListsGroups(pairs: seq<Pair>, rows: seq<Row>, done: set<int>) {
    && GroupsOnce(pairs)
    && (forall p | p in pairs :: p.group in done && IsPairOf(rows, p))
    && (forall g | g in done && |Members(rows, g)| == 2 :: Listed(pairs, g))
  }

  ghost predicate IsPairOf(rows: seq<Row>, p: Pair) {
    var m := Members(rows, p.group);
    |m| == 2 && p == Pair(p.group, m[0].id, m[1].id)
  }

  ghost predicate Listed(pairs: seq<Pair>, g: int) { exists p :: p in pairs && p.group == g }

  lemma ListOneMore(pairs: seq<Pair>, rows: seq<Row>, done: set<int>, g: int)
    requires ListsGroups(pairs, rows, done) && g !in done
    ensures |Members(rows, g)| == 2 ==>
              ListsGroups(pairs + [Pair(g, Members(rows, g)[0].id, Members(rows, g)[1].id)], rows, done + {g})
    ensures |Members(rows, g)| != 2 ==> ListsGroups(pairs, rows, done + {g})
  {
    var m := Members(rows, g);
    if |m| == 2 {
      var p := Pair(g, m[0].id, m[1].id);
      var more := pairs + [p];
      assert more[|pairs|] == p;
      forall i, j | 0 <= i < j < |more| ensures more[i].group != more[j].group {
        assert more[i] in pairs;
      }
      forall h | h in done + {g} && |Members(rows, h)| == 2 ensures Listed(more, h) {
        if h == g {
          assert p in more;
        } else {
          var q :| q in pairs && q.group == h;
          assert q in more;
        }
      }
    }
  }

  method BuildPairList(rows: seq<Row>) returns (pairs: seq<Pair>)
    ensures ListsGroups(pairs, rows, Grouped(rows).Keys)
  {
    var groups := GroupRows(rows);
    var left := groups.Keys;
    pairs := [];
    while left != {}
      invariant left <= groups.Keys
      invariant ListsGroups(pairs, rows, groups.Keys - left)
      decreases |left|
    {
      ghost var some := SomeMember(left);
      var g :| g in left;
      GroupedMeaning(rows, g);
      ListOneMore(pairs, rows, groups.Keys - left, g);
      assert groups.Keys - left + {g} == groups.Keys - (left - {g});
      if |groups[g]| == 2 { pairs := pairs + [Pair(g, groups[g][0].id, groups[g][1].id)]; }
      left := left - {g};
    }
  }

  /** How often the list names the team. */
  function Naming(pairs: seq<Pair>, id: int): nat {
    if pairs == [] then 0
    else
      var p := pairs[|pairs| - 1];
      Naming(pairs[..|pairs| - 1], id) + (if p.a == id then 1 else 0) + (if p.b == id then 1 else 0)
  }

  lemma NotListedBefore(front: seq<Pair>, p: Pair)
    requires GroupsOnce(front + [p])
    ensures GroupsOnce(front) && !Listed(front, p.group)
  {
    var all := front + [p];
    forall i, j | 0 <= i < j < |front| ensures front[i].group != front[j].group { assert all[i].group != all[j].group; }
    forall q | q in front ensures q.group != p.group {
      var i :| 0 <= i < |front| && front[i] == q;
      assert all[i].group != all[|front|].group;
    }
  }

  lemma {:induction false} NamedOnce(pairs: seq<Pair>, rows: seq<Row>, r: Row)
    requires IdsDistinct(rows) && WellPaired(rows) && r in rows
    requires GroupsOnce(pairs) && forall p | p in pairs :: IsPairOf(rows, p)
    ensures Naming(pairs, r.id) == if r.group.Some? && Listed(pairs, r.group.value) then 1 else 0
  {
    if pairs != [] {
      var front, p := pairs[..|pairs| - 1], pairs[|pairs| - 1];
      assert pairs == front + [p];
      assert p in pairs;
      NotListedBefore(front, p);
      NamedOnce(front, rows, r);
      NamedInPair(rows, p, r);
      if r.group.Some? { ListedSnoc(front, p, r.group.value); }
    }
  }

  lemma ListedSnoc(front: seq<Pair>, p: Pair, g: int)
    ensures Listed(front + [p], g) <==> Listed(front, g) || p.group == g
  {
    if q :| q in front && q.group == g { assert q in front + [p]; }
    assert p in front + [p];
  }

  lemma NamedInPair(rows: seq<Row>, p: Pair, r: Row)
    requires IdsDistinct(rows) && r in rows && IsPairOf(rows, p)
    ensures (if p.a == r.id then 1 else 0) + (if p.b == r.id then 1 else 0) == if r.group == Some(p.group) then 1 else 0
  {
    var m := Members(rows, p.group);
    MemberSettled(rows, r, p.group);
    GroupOfMember(rows, p.group, m[0]);
    GroupOfMember(rows, p.group, m[1]);
  }

  /** The listing names every paired team exactly once, and no other. */
  lemma {:induction false} PairListComplete(pairs: seq<Pair>, rows: seq<Row>, r: Row)
    requires IdsDistinct(rows) && WellPaired(rows) && r in rows && ListsGroups(pairs, rows, Grouped(rows).Keys)
    ensures Naming(pairs, r.id) == if r.group.Some? then 1 else 0
  {
    NamedOnce(pairs, rows, r);
    if r.group.Some? {
      var g := r.group.value;
      GroupedMeaning(rows, g);
      FilterMembers(rows, InGroup(g));
      assert r in Members(rows, g);
      assert GroupOfTwo(rows, g);
    }
  }

  // ---- Names of opponents ---------------------------------------------------------------------------

  /** The name beside a team in a results document: the other member of its pair, or nothing. */
  function OpponentName(rows: seq<Row>, r: Row): string {
    match r.group
    case None => ""
    case Some(g) => if |Members(rows, g)| == 2 then Other(Members(rows, g), r).name else ""
  }

  function NameSoFar(rows: seq<Row>, r: Row, done: set<int>): string {
    if r.group.Some? && r.group.value in done then OpponentName(rows, r) else ""
  }

  lemma MemberSettled(rows: seq<Row>, r: Row, g: int)
    requires IdsDistinct(rows) && r in rows && |Members(rows, g)| == 2
    ensures var m := Members(rows, g);
            && m[0].id != m[1].id
            && (r.id == m[0].id ==> r == m[0] && OpponentName(rows, r) == m[1].name)
            && (r.id == m[1].id ==> r == m[1] && OpponentName(rows, r) == m[0].name)
            && (r.group == Some(g) ==> r.id == m[0].id || r.id == m[1].id)
  {
    var m := Members(rows, g);
    MembersDistinct(rows, g);
    FilterMembers(rows, InGroup(g));
    assert m[0] in m && m[1] in m;
    if r.id == m[0].id { SameRow(rows, r, m[0]); }
    if r.id == m[1].id { SameRow(rows, r, m[1]); }
    if r.group == Some(g) { assert r in m; }
  }

  ghost predicate NamesSoFar(opponent: map<int, string>, rows: seq<Row>, done: set<int>) {
    forall r | r in rows :: r.id in opponent && opponent[r.id] == NameSoFar(rows, r, done)
  }

  lemma NamesOneMore(opponent: map<int, string>, rows: seq<Row>, done: set<int>, g: int)
    requires IdsDistinct(rows) && NamesSoFar(opponent, rows, done) && g !in done
    ensures var m := Members(rows, g);
            NamesSoFar(if |m| == 2 then opponent[m[0].id := m[1].name][m[1].id := m[0].name] else opponent,
                       rows, done + {g})
  {
    var m := Members(rows, g);
    if |m| == 2 {
      var more := opponent[m[0].id := m[1].name][m[1].id := m[0].name];
      forall r | r in rows ensures r.id in more && more[r.id] == NameSoFar(rows, r, done + {g}) {
        MemberSettled(rows, r, g);
        GroupOfMember(rows, g, m[0]);
        GroupOfMember(rows, g, m[1]);
      }
    }
  }

  lemma GroupOfMember(rows: seq<Row>, g: int, x: Row)
    requires |Members(rows, g)| == 2 && (x == Members(rows, g)[0] || x == Members(rows, g)[1])
    ensures x in rows && x.group == Some(g)
  {
    FilterMembers(rows, InGroup(g));
    assert x in Members(rows, g);
  }

  /** The second loop: the groups of two name their members to each other. */
  method NameOpponents(rows: seq<Row>, groups: map<int, seq<Row>>, blank: map<int, string>) returns (opponent: map<int, string>)
    requires IdsDistinct(rows) && groups == Grouped(rows) && NamesSoFar(blank, rows, {})
    ensures NamesSoFar(opponent, rows, groups.Keys)
  {
    opponent := blank;
    var left := groups.Keys;
    while left != {}
      invariant left <= groups.Keys
      invariant NamesSoFar(opponent, rows, groups.Keys - left)
      decreases |left|
    {
      ghost var some := SomeMember(left);
      var g :| g in left;
      GroupedMeaning(rows, g);
      NamesOneMore(opponent, rows, groups.Keys - left, g);
      assert groups.Keys - left + {g} == groups.Keys - (left - {g});
      if |groups[g]| == 2 {
        opponent := opponent[groups[g][0].id := groups[g][1].name][groups[g][1].id := groups[g][0].name];
      }
      left := left - {g};
    }
    assert groups.Keys - left == groups.Keys;
  }

  method TeamOpponentMap(rows: seq<Row>) returns (opponent: map<int, string>)
    requires IdsDistinct(rows)
    ensures forall r | r in rows :: r.id in opponent && opponent[r.id] == OpponentName(rows, r)
  {
    var groups := GroupRows(rows);
    opponent := NameOpponents(rows, groups, map r | r in rows :: r.id := "");
    forall r | r in rows ensures opponent[r.id] == OpponentName(rows, r) {
      if r.group.Some? { GroupedMeaning(rows, r.group.value); }
    }
  }

  /** The names in the documents are those of get_opponent. */
  lemma NamesAgree(rows: seq<Row>, r: Row)
    requires IdsDistinct(rows) && WellPaired(rows) && r in rows
    ensures GetOpponent(rows, r.id).Success?
    ensures OpponentName(rows, r) ==
            (match GetOpponent(rows, r.id).value case None => "" case Some(y) => y.name)
  {
    OpponentInvolution(rows, r);
    if r.group.Some? {
      FoundById(rows, r);
      var g := r.group.value;
      assert GroupOfTwo(rows, g);
      FilterMembers(rows, InGroup(g));
      assert r in Members(rows, g);
      OpponentIsOther(rows, r, g);
    }
  }

  // ---- The table ------------------------------------------------------------------------------------------

  class VersusTable {
    var rows: seq<Row>
    const enabled: bool

    constructor (rows: seq<Row>, enabled: bool)
      ensures this.rows == rows && this.enabled == enabled
    {
      this.rows, this.enabled := rows, enabled;
    }

    method SetGroup(id: int, g: int)
      modifies this
      ensures rows == Map(old(rows), (r: Row) => if r.id == id then r.(group := Some(g)) else r)
    {
      rows := Map(rows, (r: Row) => if r.id == id then r.(group := Some(g)) else r);
    }

    /** The checks in the order they are made; both rows get the first team's id as their group. */
    method CreateVersusPair(a: int, b: int) returns (result: Result<int, Error>)
      modifies this
      ensures result == (match PairError(enabled, old(rows), a, b) case None => Success(a) case Some(e) => Failure(e))
      ensures rows == Paired(enabled, old(rows), a, b)
    {
      if !enabled { return Failure(NotEnabled); }
      if a == b { return Failure(PairedWithItself); }
      var teamA, teamB := ById(rows, a), ById(rows, b);
      if teamA == None || teamB == None { return Failure(NotFound); }
      if teamA.value.group.Some? { return Failure(AlreadyPaired(a)); }
      if teamB.value.group.Some? { return Failure(AlreadyPaired(b)); }
      ByIdMeaning(rows, a);
      SetGroup(a, a);
      SetGroup(b, a);
      MapMap(old(rows), (r: Row) => if r.id == a then r.(group := Some(a)) else r,
             (r: Row) => if r.id == b then r.(group := Some(a)) else r, Grouping(a, b));
      return Success(a);
    }
  }
}
