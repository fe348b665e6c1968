/** Teams and the competitions they take part in, compared by database id. */
module Teams {
  import opened Base

  datatype CompetitionType = League | Cup

  /** A competition; `id` is `None` until the row is persisted. */
  datatype Competition = Competition(id: Option<int>, kind: CompetitionType)

  /** A team with its linked competitions, in the order the relationship yields them. */
  datatype Team = Team(id: Option<int>, competitions: seq<Competition>)

  /** The competitions of `cs` whose type is `kind`, keeping their order. */
  function OfKind(cs: seq<Competition>, kind: CompetitionType): (r: seq<Competition>)
    ensures |r| <= |cs|
    ensures forall i :: 0 <= i < |r| ==> r[i].kind == kind && r[i] in cs
    ensures forall i :: 0 <= i < |cs| && cs[i].kind == kind ==> cs[i] in r
  {
    if |cs| == 0 then []
    else if cs[0].kind == kind then [cs[0]] + OfKind(cs[1..], kind)
    else OfKind(cs[1..], kind)
  }

  /** Filtering keeps the original order: it distributes over concatenation. */
  lemma {:induction false} OfKindAppend(a: seq<Competition>, b: seq<Competition>, kind: CompetitionType)
    ensures OfKind(a + b, kind) == OfKind(a, kind) + OfKind(b, kind)
  {
    if |a| == 0 {
      assert a + b == b;
    } else {
      assert (a + b)[0] == a[0];
      assert (a + b)[1..] == a[1..] + b;
      OfKindAppend(a[1..], b, kind);
    }
  }

  function Leagues(t: Team): seq<Competition> {
    OfKind(t.competitions, League)
  }

  function Cups(t: Team): seq<Competition> {
    OfKind(t.competitions, Cup)
  }

  /** Leagues and cups split the competition list: together they hold every
      competition exactly once. */
  lemma {:induction false} LeaguesAndCupsPartition(cs: seq<Competition>)
    ensures |OfKind(cs, League)| + |OfKind(cs, Cup)| == |cs|
    ensures multiset(OfKind(cs, League)) + multiset(OfKind(cs, Cup)) == multiset(cs)
  {
    if |cs| > 0 {
      LeaguesAndCupsPartition(cs[1..]);
      assert cs == [cs[0]] + cs[1..];
    }
  }

  /** Python's `any(c.id == id for c in cs)`. */
  function AnyWithId(cs: seq<Competition>, id: Option<int>): (r: bool)
    ensures r <==> exists i :: 0 <= i < |cs| && cs[i].id == id
  {
    if |cs| == 0 then false
    else cs[0].id == id || AnyWithId(cs[1..], id)
  }

  function IsInLeague(t: Team, league: Competition): bool {
    AnyWithId(Leagues(t), league.id)
  }

  function IsInCup(t: Team, cup: Competition): bool {
    AnyWithId(Cups(t), cup.id)
  }

  /** Membership in a league is an id match against a league-typed competition of the
      team, whatever the type of the competition asked about. */
  lemma IsInLeagueMeans(t: Team, league: Competition)
    ensures IsInLeague(t, league) <==>
      exists i :: 0 <= i < |t.competitions| && t.competitions[i].kind == League
                  && t.competitions[i].id == league.id
  {
    var ls := Leagues(t);
    if IsInLeague(t, league) {
      var j :| 0 <= j < |ls| && ls[j].id == league.id;
      var i :| 0 <= i < |t.competitions| && t.competitions[i] == ls[j];
      assert t.competitions[i].kind == League;
    }
  }

  lemma IsInCupMeans(t: Team, cup: Competition)
    ensures IsInCup(t, cup) <==>
      exists i :: 0 <= i < |t.competitions| && t.competitions[i].kind == Cup
                  && t.competitions[i].id == cup.id
  {
    var cs := Cups(t);
    if IsInCup(t, cup) {
      var j :| 0 <= j < |cs| && cs[j].id == cup.id;
      var i :| 0 <= i < |t.competitions| && t.competitions[i] == cs[j];
      assert t.competitions[i].kind == Cup;
    }
  }

  /** Team equality (`__eq__`) compares ids only; two unsaved teams are equal. */
  predicate SameTeam(a: Team, b: Team) {
    a.id == b.id
  }

  /** CPython's hash of an integer: reduction modulo the Mersenne prime 2^61 - 1,
      keeping the sign, with -1 reserved. */
  const HashModulus: int := 0x1FFF_FFFF_FFFF_FFFF

  function HashInt(n: int): (h: int)
    ensures h != -1
    ensures -HashModulus < h < HashModulus
    ensures 0 <= n < HashModulus ==> h == n
  {
    var m := if n >= 0 then n % HashModulus else -((-n) % HashModulus);
    if m == -1 then -2 else m
  }

  /** `hash(self.id)`; the interpreter's fixed hash of `None` is a parameter. The hash
      depends on the id alone, so it agrees with equality; a small non-negative id is
      its own hash, and no id hashes to the reserved -1. */
  function TeamHash(t: Team, noneHash: int): (h: int)
    ensures t.id.None? ==> h == noneHash
    ensures t.id.Some? ==> h != -1 && -HashModulus < h < HashModulus
    ensures t.id.Some? && 0 <= t.id.value < HashModulus ==> h == t.id.value
  {
    match t.id
    case None => noneHash
    case Some(n) => HashInt(n)
  }

  /** The ids that occur in both competition lists. */
  function SharedIds(home: Team, away: Team): set<Option<int>> {
    set i | 0 <= i < |home.competitions| && AnyWithId(away.competitions, home.competitions[i].id)
          :: home.competitions[i].id
  }

  lemma SharedIdsEmpty(home: Team, away: Team)
    ensures SharedIds(home, away) == {} <==>
      forall i, j :: 0 <= i < |home.competitions| && 0 <= j < |away.competitions|
                     ==> home.competitions[i].id != away.competitions[j].id
  {
    if !(forall i, j :: 0 <= i < |home.competitions| && 0 <= j < |away.competitions|
                        ==> home.competitions[i].id != away.competitions[j].id) {
      var i, j :| 0 <= i < |home.competitions| && 0 <= j < |away.competitions|
                  && home.competitions[i].id == away.competitions[j].id;
      assert home.competitions[i].id in SharedIds(home, away);
    }
  }

  /** The ids of the competitions the two teams share: Python intersects the two
      competition sets, whose elements are equal exactly when their ids are, and
      asserts that the intersection is not empty. */
  function CommonCompetitionIds(home: Team, away: Team): (r: Result<set<Option<int>>>)
    ensures r.Err? <==>
      forall i, j :: 0 <= i < |home.competitions| && 0 <= j < |away.competitions|
                     ==> home.competitions[i].id != away.competitions[j].id
    ensures r.Err? ==> r.error == NoCommonCompetition
    ensures r.Ok? ==> forall id :: id in r.value <==> AnyWithId(home.competitions, id) && AnyWithId(away.competitions, id)
  {
    SharedIdsEmpty(home, away);
    var common := SharedIds(home, away);
    if common == {} then Err(NoCommonCompetition) else Ok(common)
  }
}
