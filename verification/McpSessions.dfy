/** The table of MCP sessions, bounded for each operator and in all, least recently used first. */
module McpSessions {
  import opened Wrappers
  import opened Sorting

  const MAX_SESSIONS := 500
  const MAX_SESSIONS_PER_OWNER := 100

  // The owner is the token-verified operator who initialized it, if there was one.
  datatype Session = Session(id: string, owner: Option<string>, createdAt: string, lastUsedAt: string)

  type Table = map<string, Session>

  predicate IsTable(sessions: Table) {
    forall id | id in sessions :: sessions[id].id == id
  }

  // ---- Least recently used first --------------------------------------------------------------------------

  /** Strings in the order of their code points. */
  predicate TextLe(a: string, b: string) {
    a == "" || (b != "" && (a[0] < b[0] || (a[0] == b[0] && TextLe(a[1..], b[1..]))))
  }

  function Stamp(session: Session): string {
    if session.lastUsedAt != "" then session.lastUsedAt else session.createdAt
  }

  predicate SessionLe(a: Session, b: Session) {
    if Stamp(a) == Stamp(b) then TextLe(a.id, b.id) else TextLe(Stamp(a), Stamp(b))
  }

  /** Used more recently; of two used at one time, the one with the greater id. */
  predicate Later(a: Session, b: Session) {
    !SessionLe(a, b)
  }

  lemma {:induction false} TextOrder(a: string, b: string, c: string)
    ensures TextLe(a, b) || TextLe(b, a)
    ensures TextLe(a, b) && TextLe(b, a) ==> a == b
    ensures TextLe(a, b) && TextLe(b, c) ==> TextLe(a, c)
  {
    if a != "" && b != "" {
      if c != "" {
        TextOrder(a[1..], b[1..], c[1..]);
      } else {
        TextOrder(a[1..], b[1..], "");
      }
      assert a == [a[0]] + a[1..] && b == [b[0]] + b[1..];
    }
  }

  lemma SessionOrder()
    ensures IsOrder(SessionLe)
    ensures forall a, b :: SessionLe(a, b) && SessionLe(b, a) ==> a.id == b.id
  {
    forall a, b, c
      ensures SessionLe(a, b) || SessionLe(b, a)
      ensures SessionLe(a, b) && SessionLe(b, c) ==> SessionLe(a, c)
      ensures SessionLe(a, b) && SessionLe(b, a) ==> a.id == b.id
    {
      TextOrder(Stamp(a), Stamp(b), Stamp(c));
      TextOrder(Stamp(b), Stamp(c), Stamp(a));
      TextOrder(a.id, b.id, c.id);
    }
  }

  /** One text comes before another: it is a beginning of it, or has the lesser character where they first differ. */
  ghost predicate Before(a: string, b: string) {
    a < b || exists k | 0 <= k < |a| && k < |b| :: DifferAt(a, b, k) && a[k] < b[k]
  }

  predicate DifferAt(a: string, b: string, k: nat)
    requires k < |a| && k < |b|
  {
    a[..k] == b[..k] && a[k] != b[k]
  }

  lemma {:induction false} TextOrderIsByCharacter(a: string, b: string)
    ensures TextLe(a, b) <==> a == b || Before(a, b)
    ensures a == b ==> !Before(a, b)
  {
    hide Before;
    if a == "" || b == "" {
      EmptyIsBefore(a, b);
    } else {
      assert a == [a[0]] + a[1..] && b == [b[0]] + b[1..];
      if a[0] != b[0] {
        FirstDiffers(a, b);
      } else {
        TextOrderIsByCharacter(a[1..], b[1..]);
        forall k | 0 <= k < |a[1..]| && k < |b[1..]| ensures DifferAt(a[1..], b[1..], k) <==> DifferAt(a, b, k + 1) {
          DiffersFurther(a, b, k);
        }
        MoreDiffers(a, b);
      }
    }
  }

  lemma EmptyIsBefore(a: string, b: string)
    requires a == "" || b == ""
    ensures Before(a, b) <==> a == "" && b != ""
  {
  }

  lemma FirstDiffers(a: string, b: string)
    requires a != "" && b != "" && a[0] != b[0]
    ensures Before(a, b) <==> a[0] < b[0]
  {
    assert DifferAt(a, b, 0);
    forall k | 0 < k < |a| && k < |b| ensures !DifferAt(a, b, k) {
      assert a[..k][0] == a[0] && b[..k][0] == b[0];
    }
  }

  lemma DiffersFurther(a: string, b: string, k: nat)
    requires a != "" && b != "" && a[0] == b[0] && k < |a[1..]| && k < |b[1..]|
    ensures DifferAt(a[1..], b[1..], k) <==> DifferAt(a, b, k + 1)
  {
    assert a[..k + 1] == [a[0]] + a[1..][..k] && b[..k + 1] == [b[0]] + b[1..][..k];
    assert a[1..][..k] == a[..k + 1][1..] && b[1..][..k] == b[..k + 1][1..];
  }

  lemma MoreDiffers(a: string, b: string)
    requires a != "" && b != "" && a[0] == b[0]
    requires forall k | 0 <= k < |a[1..]| && k < |b[1..]| :: DifferAt(a[1..], b[1..], k) <==> DifferAt(a, b, k + 1)
    ensures Before(a, b) <==> Before(a[1..], b[1..])
  {
    var a', b' := a[1..], b[1..];
    assert a == [a[0]] + a' && b == [b[0]] + b';
    if k :| 0 <= k < |a'| && k < |b'| && DifferAt(a', b', k) && a'[k] < b'[k] {
      assert DifferAt(a, b, k + 1);
    }
    if k :| 0 <= k < |a| && k < |b| && DifferAt(a, b, k) && a[k] < b[k] {
      assert DifferAt(a', b', k - 1);
    }
  }

  /** Last used before the other was; a session never used counts from its creation. */
  ghost predicate UsedBefore(a: Session, b: Session) {
    if b.lastUsedAt != "" then
      if a.lastUsedAt != "" then Before(a.lastUsedAt, b.lastUsedAt) else Before(a.createdAt, b.lastUsedAt)
    else
      if a.lastUsedAt != "" then Before(a.lastUsedAt, b.createdAt) else Before(a.createdAt, b.createdAt)
  }

  /** The order of an eviction is that of use; at one time, that of the ids. */
  lemma UsedBeforeIsNotLater(a: Session, b: Session)
    ensures UsedBefore(a, b) ==> Later(b, a) && !Later(a, b)
    ensures !UsedBefore(a, b) && !UsedBefore(b, a) ==> (Later(b, a) <==> Before(a.id, b.id))
  {
    hide Before, TextLe;
    TextOrderIsByCharacter(Stamp(a), Stamp(b));
    TextOrderIsByCharacter(Stamp(b), Stamp(a));
    TextOrder(Stamp(a), Stamp(b), "");
    TextOrderIsByCharacter(b.id, a.id);
    TextOrderIsByCharacter(a.id, b.id);
    TextOrder(a.id, b.id, "");
  }

  // ---- What an eviction leaves ----------------------------------------------------------------------------

  function OwnedBy(sessions: Table, owner: string): set<string> {
    set id | id in sessions && sessions[id].owner == Some(owner)
  }

  function LaterIn(sessions: Table, group: set<string>, session: Session): set<string> {
    set id | id in group && id in sessions && Later(sessions[id], session)
  }

  /** The operator has so many sessions used more recently that this one is past its cap. */
  predicate PastOwnersCap(sessions: Table, session: Session) {
    session.owner.Some? && |LaterIn(sessions, OwnedBy(sessions, session.owner.value), session)| >= MAX_SESSIONS_PER_OWNER
  }

  function Capped(sessions: Table): Table {
    map id | id in sessions && !PastOwnersCap(sessions, sessions[id]) :: sessions[id]
  }

  function MostRecent(sessions: Table, count: nat): Table {
    map id | id in sessions && |LaterIn(sessions, sessions.Keys, sessions[id])| < count :: sessions[id]
  }

  /** Each operator's least recently used past its cap go, then of what is left the least recently used past
      the table's. */
  function Evicted(sessions: Table): Table {
    MostRecent(Capped(sessions), MAX_SESSIONS)
  }

  // ---- Ranks in a sorted listing ----------------------------------------------------------------------------

  /** Least recently used first, no id twice. */
  predicate InOrder(ranked: seq<Session>) {
    SortedBy(SessionLe, ranked) && forall i, j | 0 <= i < j < |ranked| :: ranked[i].id != ranked[j].id
  }

  /** The group's sessions, each once, least recently used first. */
  predicate Ranked(sessions: Table, group: set<string>, ranked: seq<Session>) {
    && InOrder(ranked)
    && (forall i | 0 <= i < |ranked| :: ranked[i].id in group && ranked[i].id in sessions && sessions[ranked[i].id] == ranked[i])
    && (forall id | id in group && id in sessions :: sessions[id] in ranked)
  }

  function Ids(ranked: seq<Session>): set<string> {
    set i | 0 <= i < |ranked| :: ranked[i].id
  }

  lemma {:induction false} CountIds(ranked: seq<Session>)
    requires forall i, j | 0 <= i < j < |ranked| :: ranked[i].id != ranked[j].id
    ensures |Ids(ranked)| == |ranked|
  {
    hide Ids;
    if ranked == [] {
      NoIds();
    } else {
      var rest, last := ranked[..|ranked| - 1], ranked[|ranked| - 1];
      CountIds(rest);
      IdsOfLast(rest, last);
      assert ranked == rest + [last];
    }
  }

  lemma NoIds()
    ensures Ids([]) == {}
  {
  }

  lemma IdsOfLast(rest: seq<Session>, last: Session)
    requires forall i | 0 <= i < |rest| :: rest[i].id != last.id
    ensures last.id !in Ids(rest) && Ids(rest + [last]) == Ids(rest) + {last.id}
  {
    var ranked := rest + [last];
    forall id | id in Ids(rest) + {last.id} ensures id in Ids(ranked) {
      if id == last.id {
        assert ranked[|rest|].id == id;
      } else {
        var i :| 0 <= i < |rest| && rest[i].id == id;
        assert ranked[i].id == id;
      }
    }
  }

  lemma AfterIsLater(sessions: Table, group: set<string>, ranked: seq<Session>, i: nat, id: string)
    requires IsTable(sessions) && Ranked(sessions, group, ranked) && i < |ranked|
    ensures id in LaterIn(sessions, group, ranked[i]) <==> id in Ids(ranked[i + 1..])
  {
    SessionOrder();
    hide SessionLe, IsOrder;
    var after := ranked[i + 1..];
    SelfLe(ranked[i]);
    assert forall j | 0 <= j <= i :: SessionLe(ranked[j], ranked[i]);
    if id in LaterIn(sessions, group, ranked[i]) {
      var j :| 0 <= j < |ranked| && ranked[j] == sessions[id];
      assert after[j - i - 1].id == id;
    }
    if id in Ids(after) {
      var k :| 0 <= k < |after| && after[k].id == id;
      assert after[k] == ranked[i + 1 + k];
      assert SessionLe(ranked[i], ranked[i + 1 + k]);
    }
  }

  lemma SelfLe(session: Session)
    ensures SessionLe(session, session)
  {
    TextOrder(session.id, session.id, session.id);
  }

  /** As many of the group are more recent as come after it. */
  lemma RankIsLaterCount(sessions: Table, group: set<string>, ranked: seq<Session>, i: nat)
    requires IsTable(sessions) && Ranked(sessions, group, ranked) && i < |ranked|
    ensures |LaterIn(sessions, group, ranked[i])| == |ranked| - 1 - i
  {
    forall id ensures id in LaterIn(sessions, group, ranked[i]) <==> id in Ids(ranked[i + 1..]) {
      AfterIsLater(sessions, group, ranked, i, id);
    }
    CountIds(ranked[i + 1..]);
    assert LaterIn(sessions, group, ranked[i]) == Ids(ranked[i + 1..]);
  }

  function Excess(count: nat, cap: nat): (r: nat)
    ensures r <= count
  {
    if count > cap then count - cap else 0
  }

  /** The ones before the cap's worth at the end are the ones with the cap's worth more recent. */
  lemma ExcessIsPastTheCap(sessions: Table, group: set<string>, ranked: seq<Session>, cap: nat)
    requires IsTable(sessions) && Ranked(sessions, group, ranked)
    ensures Ids(ranked[..Excess(|ranked|, cap)])
         == set id | id in group && id in sessions && |LaterIn(sessions, group, sessions[id])| >= cap
  {
    hide LaterIn, Later, SortedBy;
    var first := ranked[..Excess(|ranked|, cap)];
    forall i | 0 <= i < |ranked| ensures ranked[i].id in Ids(first) <==> |LaterIn(sessions, group, sessions[ranked[i].id])| >= cap {
      RankIsLaterCount(sessions, group, ranked, i);
      if ranked[i].id in Ids(first) {
        var j :| 0 <= j < |first| && first[j].id == ranked[i].id;
        assert ranked[j].id == ranked[i].id;
      }
      assert i < |first| ==> first[i] == ranked[i];
    }
    forall id | id in group && id in sessions ensures exists i :: 0 <= i < |ranked| && ranked[i].id == id {
      var i :| 0 <= i < |ranked| && ranked[i] == sessions[id];
    }
    forall id | id in Ids(first) ensures exists i :: 0 <= i < |ranked| && ranked[i].id == id && id in group && id in sessions {
      var i :| 0 <= i < |first| && first[i].id == id;
      assert ranked[i].id == id;
    }
  }

  // ---- One operator's part of a listing ---------------------------------------------------------------------

  function OfOwner(ranked: seq<Session>, owner: string): seq<Session> {
    if ranked == [] then []
    else
      var last := ranked[|ranked| - 1];
      OfOwner(ranked[..|ranked| - 1], owner) + if last.owner == Some(owner) then [last] else []
  }

  lemma InOrderWithOneMore(found: seq<Session>, last: Session)
    requires InOrder(found) && forall session | session in found :: SessionLe(session, last) && session.id != last.id
    ensures InOrder(found + [last])
  {
  }

  lemma LastInOrder(rest: seq<Session>, last: Session)
    requires InOrder(rest + [last])
    ensures InOrder(rest) && forall session | session in rest :: SessionLe(session, last) && session.id != last.id
  {
    hide SessionLe;
    var more := rest + [last];
    assert forall i | 0 <= i < |rest| :: more[i] == rest[i];
    assert more[|rest|] == last;
  }

  lemma {:induction false} OfOwnerKeepsRanks(ranked: seq<Session>, owner: string)
    requires InOrder(ranked)
    ensures InOrder(OfOwner(ranked, owner))
    ensures forall session :: session in OfOwner(ranked, owner) <==> session in ranked && session.owner == Some(owner)
  {
    hide InOrder, SessionLe;
    if ranked != [] {
      var rest, last := ranked[..|ranked| - 1], ranked[|ranked| - 1];
      assert ranked == rest + [last];
      LastInOrder(rest, last);
      OfOwnerKeepsRanks(rest, owner);
      InOrderWithOneMore(OfOwner(rest, owner), last);
      assert OfOwner(rest, owner) + [] == OfOwner(rest, owner);
    } else {
      NoneInOrder();
    }
  }

  lemma NoneInOrder()
    ensures InOrder([])
  {
  }

  lemma OwnersPartIsRanked(sessions: Table, ranked: seq<Session>, owner: string)
    requires IsTable(sessions) && Ranked(sessions, sessions.Keys, ranked)
    ensures Ranked(sessions, OwnedBy(sessions, owner), OfOwner(ranked, owner))
  {
    hide SessionLe;
    OfOwnerKeepsRanks(ranked, owner);
    var part := OfOwner(ranked, owner);
    forall i | 0 <= i < |part|
      ensures part[i].id in OwnedBy(sessions, owner) && sessions[part[i].id] == part[i]
    {
      assert part[i] in ranked;
    }
  }

  class McpTransport {
    var sessions: Table

    constructor ()
      ensures sessions == map[]
    {
      sessions := map[];
    }

    method LeastRecentlyUsed() returns (ranked: seq<Session>)
      requires IsTable(sessions)
      ensures Ranked(sessions, sessions.Keys, ranked) && |ranked| == |sessions|
      ensures forall i, j | 0 <= i < j < |ranked| :: !UsedBefore(ranked[j], ranked[i])
    {
      hide UsedBefore;
      var listed: seq<Session>, rest := [], sessions.Keys;
      while rest != {}
        invariant rest <= sessions.Keys && NoRepeats(listed)
        invariant forall session | session in listed ::
                    session.id in sessions && sessions[session.id] == session && session.id !in rest
        invariant forall id | id in sessions :: id in rest || sessions[id] in listed
        decreases rest
      {
        var id :| id in rest;
        listed, rest := listed + [sessions[id]], rest - {id};
      }
      ranked := Sort(SessionLe, listed);
      ListingIsRanked(sessions, listed);
      forall i, j | 0 <= i < j < |ranked| ensures !UsedBefore(ranked[j], ranked[i]) {
        UsedBeforeIsNotLater(ranked[j], ranked[i]);
      }
    }

    method Drop(dropped: seq<Session>)
      modifies this
      ensures sessions == old(sessions) - Ids(dropped)
    {
      for i := 0 to |dropped|
        invariant sessions == old(sessions) - Ids(dropped[..i])
      {
        IdsOfMore(dropped, i);
        sessions := sessions - {dropped[i].id};
      }
      assert dropped[..|dropped|] == dropped;
    }

    method GroupByOwner(ranked: seq<Session>) returns (byOwner: map<string, seq<Session>>)
      ensures Grouped(ranked, byOwner, |ranked|)
    {
      hide OfOwner;
      byOwner := map[];
      NoneGrouped(ranked);
      for i := 0 to |ranked|
        invariant Grouped(ranked, byOwner, i)
      {
        if ranked[i].owner.Some? {
          var owner := ranked[i].owner.value;
          var found := if owner in byOwner then byOwner[owner] else [];
          GroupsOneMore(ranked, byOwner, i, owner, found);
          byOwner := byOwner[owner := found + [ranked[i]]];
        } else {
          GroupsNone(ranked, byOwner, i);
        }
      }
    }

    method EvictStaleSessions()
      requires IsTable(sessions)
      modifies this
      ensures sessions == Evicted(old(sessions))
    {
      hide Grouped, Ranked, CappedFor, Capped, MostRecent, Evicted, Excess, Ids, IsTable;
      ghost var before := sessions;
      NothingCapped(before);
      var ranked := LeastRecentlyUsed();
      var byOwner := GroupByOwner(ranked);
      var owners := byOwner.Keys;
      assert byOwner.Keys - owners == {};
      while owners != {}
        invariant owners <= byOwner.Keys
        invariant sessions == CappedFor(before, byOwner.Keys - owners)
        decreases owners
      {
        var owner :| owner in owners;
        CapsOneMore(before, ranked, byOwner, byOwner.Keys - owners, owner);
        var excess := Excess(|byOwner[owner]|, MAX_SESSIONS_PER_OWNER);
        Drop(byOwner[owner][..excess]);
        assert byOwner.Keys - (owners - {owner}) == byOwner.Keys - owners + {owner};
        owners := owners - {owner};
      }
      assert byOwner.Keys - owners == byOwner.Keys;
      AllCapped(before, ranked, byOwner);
      var left := LeastRecentlyUsed();
      LeavesTheMostRecent(sessions, left);
      EvictedIs(before);
      var excess := Excess(|sessions|, MAX_SESSIONS);
      Drop(left[..excess]);
    }

    /** A new session takes its place in the table, and what is then past a cap goes. */
    method Initialize(session: Session)
      requires IsTable(sessions)
      modifies this
      ensures sessions == Evicted(old(sessions)[session.id := session])
    {
      sessions := sessions[session.id := session];
      EvictStaleSessions();
    }
  }

  lemma ListingIsRanked(sessions: Table, listed: seq<Session>)
    requires IsTable(sessions) && NoRepeats(listed)
    requires forall session | session in listed :: session.id in sessions && sessions[session.id] == session
    requires forall id | id in sessions :: sessions[id] in listed
    ensures Ranked(sessions, sessions.Keys, Sort(SessionLe, listed)) && |Sort(SessionLe, listed)| == |sessions|
  {
    SessionOrder();
    SortSorts(SessionLe, listed);
    SortKeepsApart(SessionLe, listed);
    ListsEachOnce(sessions, Sort(SessionLe, listed));
  }

  lemma ListsEachOnce(sessions: Table, ranked: seq<Session>)
    requires IsTable(sessions) && NoRepeats(ranked) && SortedBy(SessionLe, ranked)
    requires forall session | session in ranked :: session.id in sessions && sessions[session.id] == session
    requires forall id | id in sessions :: sessions[id] in ranked
    ensures Ranked(sessions, sessions.Keys, ranked) && |ranked| == |sessions|
  {
    hide SessionLe;
    forall i | 0 <= i < |ranked| ensures ranked[i].id in sessions && sessions[ranked[i].id] == ranked[i] {
      assert ranked[i] in ranked;
    }
    CountIds(ranked);
    forall id | id in sessions ensures id in Ids(ranked) {
      var i :| 0 <= i < |ranked| && ranked[i] == sessions[id];
      assert ranked[i].id == id;
    }
    assert Ids(ranked) == sessions.Keys;
  }

  lemma IdsOfMore(dropped: seq<Session>, i: nat)
    requires i < |dropped|
    ensures Ids(dropped[..i + 1]) == Ids(dropped[..i]) + {dropped[i].id}
  {
  }

  /** Each operator met so far has its part of the listing so far. */
  ghost predicate Grouped(ranked: seq<Session>, byOwner: map<string, seq<Session>>, i: nat) {
    && i <= |ranked|
    && (forall owner | owner in byOwner :: byOwner[owner] == OfOwner(ranked[..i], owner))
    && (forall owner | owner !in byOwner :: OfOwner(ranked[..i], owner) == [])
    && (forall k | 0 <= k < i && ranked[k].owner.Some? :: ranked[k].owner.value in byOwner)
  }

  lemma NoneGrouped(ranked: seq<Session>)
    ensures Grouped(ranked, map[], 0)
  {
  }

  lemma OfOwnerNext(ranked: seq<Session>, i: nat, owner: string)
    requires i < |ranked|
    ensures OfOwner(ranked[..i + 1], owner)
         == OfOwner(ranked[..i], owner) + if ranked[i].owner == Some(owner) then [ranked[i]] else []
  {
    assert ranked[..i + 1][..i] == ranked[..i];
  }

  lemma GroupsOneMore(ranked: seq<Session>, byOwner: map<string, seq<Session>>, i: nat, owner: string, found: seq<Session>)
    requires i < |ranked| && Grouped(ranked, byOwner, i) && ranked[i].owner == Some(owner)
    requires found == if owner in byOwner then byOwner[owner] else []
    ensures Grouped(ranked, byOwner[owner := found + [ranked[i]]], i + 1)
  {
    forall other ensures OfOwner(ranked[..i + 1], other)
                      == OfOwner(ranked[..i], other) + if other == owner then [ranked[i]] else [] {
      OfOwnerNext(ranked, i, other);
    }
  }

  lemma GroupsNone(ranked: seq<Session>, byOwner: map<string, seq<Session>>, i: nat)
    requires i < |ranked| && Grouped(ranked, byOwner, i) && ranked[i].owner.None?
    ensures Grouped(ranked, byOwner, i + 1)
  {
    forall other ensures OfOwner(ranked[..i + 1], other) == OfOwner(ranked[..i], other) {
      OfOwnerNext(ranked, i, other);
    }
  }

  // The table once the listed operators have been brought under their cap.
  function CappedFor(sessions: Table, owners: set<string>): Table {
    map id | id in sessions
      && !(sessions[id].owner.Some? && sessions[id].owner.value in owners && PastOwnersCap(sessions, sessions[id])) :: sessions[id]
  }

  lemma NothingCapped(sessions: Table)
    ensures CappedFor(sessions, {}) == sessions
  {
  }

  /** Taking the beginning of an operator's part of the listing brings it under its cap. */
  lemma CapsOneMore(sessions: Table, ranked: seq<Session>, byOwner: map<string, seq<Session>>, owners: set<string>, owner: string)
    requires IsTable(sessions) && Ranked(sessions, sessions.Keys, ranked) && Grouped(ranked, byOwner, |ranked|) && owner in byOwner
    ensures
      var excess := Excess(|byOwner[owner]|, MAX_SESSIONS_PER_OWNER);
      CappedFor(sessions, owners + {owner}) == CappedFor(sessions, owners) - Ids(byOwner[owner][..excess])
  {
    hide Later, LaterIn, Excess, Ids, Ranked;
    assert ranked[..|ranked|] == ranked;
    OwnersPartIsRanked(sessions, ranked, owner);
    ExcessIsPastTheCap(sessions, OwnedBy(sessions, owner), byOwner[owner], MAX_SESSIONS_PER_OWNER);
  }

  lemma AllCapped(sessions: Table, ranked: seq<Session>, byOwner: map<string, seq<Session>>)
    requires IsTable(sessions) && Ranked(sessions, sessions.Keys, ranked) && Grouped(ranked, byOwner, |ranked|)
    ensures CappedFor(sessions, byOwner.Keys) == Capped(sessions) && IsTable(Capped(sessions))
  {
  }

  lemma LeavesTheMostRecent(sessions: Table, ranked: seq<Session>)
    requires IsTable(sessions) && Ranked(sessions, sessions.Keys, ranked) && |ranked| == |sessions|
    ensures sessions - Ids(ranked[..Excess(|sessions|, MAX_SESSIONS)]) == MostRecent(sessions, MAX_SESSIONS)
  {
    hide Later, LaterIn, Excess, Ids, Ranked;
    ExcessIsPastTheCap(sessions, sessions.Keys, ranked, MAX_SESSIONS);
  }

  lemma EvictedIs(sessions: Table)
    ensures Evicted(sessions) == MostRecent(Capped(sessions), MAX_SESSIONS)
  {
  }

  // ---- What the bound means ---------------------------------------------------------------------------------

  lemma Rank(sessions: Table, group: set<string>) returns (ranked: seq<Session>)
    requires IsTable(sessions) && group <= sessions.Keys
    ensures Ranked(sessions, group, ranked) && |ranked| == |group|
  {
    var part: Table := map id | id in group :: sessions[id];
    var listed: seq<Session>, rest := [], group;
    while rest != {}
      invariant rest <= group && NoRepeats(listed)
      invariant forall session | session in listed ::
                  session.id in part && part[session.id] == session && session.id !in rest
      invariant forall id | id in part :: id in rest || part[id] in listed
      decreases rest
    {
      var id :| id in rest;
      listed, rest := listed + [part[id]], rest - {id};
    }
    ListingIsRanked(part, listed);
    ranked := Sort(SessionLe, listed);
    assert part.Keys == group;
  }

  /** The set the cap keeps is as large as the cap allows, and no larger. */
  lemma KeptByTheCap(sessions: Table, group: set<string>, cap: nat)
    requires IsTable(sessions) && group <= sessions.Keys
    ensures
      var kept := set id | id in group && |LaterIn(sessions, group, sessions[id])| < cap;
      |kept| == if |group| < cap then |group| else cap
  {
    hide LaterIn, Ranked, Ids;
    var ranked := Rank(sessions, group);
    ExcessIsPastTheCap(sessions, group, ranked, cap);
    var gone := Ids(ranked[..Excess(|ranked|, cap)]);
    GoneCount(sessions, group, ranked, cap);
    var kept := set id | id in group && |LaterIn(sessions, group, sessions[id])| < cap;
    assert group == kept + gone && kept !! gone;
  }

  lemma GoneCount(sessions: Table, group: set<string>, ranked: seq<Session>, cap: nat)
    requires Ranked(sessions, group, ranked)
    ensures |Ids(ranked[..Excess(|ranked|, cap)])| == Excess(|ranked|, cap)
  {
    CountIds(ranked[..Excess(|ranked|, cap)]);
  }

  /** Within every cap. */
  ghost predicate Settled(sessions: Table) {
    && IsTable(sessions)
    && (forall owner :: |OwnedBy(sessions, owner)| <= MAX_SESSIONS_PER_OWNER)
    && |sessions| <= MAX_SESSIONS
  }

  lemma SmallerOrEqual<T>(a: set<T>, b: set<T>)
    requires a <= b
    ensures |a| <= |b|
  {
    assert b == a + (b - a);
  }

  lemma OwnerCapped(sessions: Table, owner: string)
    requires IsTable(sessions)
    ensures
      var owned := |OwnedBy(sessions, owner)|;
      |OwnedBy(Capped(sessions), owner)| == if owned < MAX_SESSIONS_PER_OWNER then owned else MAX_SESSIONS_PER_OWNER
  {
    hide LaterIn;
    var group := OwnedBy(sessions, owner);
    KeptByTheCap(sessions, group, MAX_SESSIONS_PER_OWNER);
    assert OwnedBy(Capped(sessions), owner)
        == set id | id in group && |LaterIn(sessions, group, sessions[id])| < MAX_SESSIONS_PER_OWNER;
  }

  lemma TableCapped(sessions: Table, count: nat)
    requires IsTable(sessions)
    ensures |MostRecent(sessions, count)| == if |sessions| < count then |sessions| else count
  {
    hide LaterIn;
    KeptByTheCap(sessions, sessions.Keys, count);
    assert MostRecent(sessions, count).Keys
        == set id | id in sessions.Keys && |LaterIn(sessions, sessions.Keys, sessions[id])| < count;
  }

  /** After an eviction no operator has over its cap, and the table is not over its own. */
  lemma EvictionSettles(sessions: Table)
    requires IsTable(sessions)
    ensures Settled(Evicted(sessions))
  {
    hide PastOwnersCap, LaterIn;
    TableCapped(Capped(sessions), MAX_SESSIONS);
    forall owner ensures |OwnedBy(Evicted(sessions), owner)| <= MAX_SESSIONS_PER_OWNER {
      OwnerCapped(sessions, owner);
      SmallerOrEqual(OwnedBy(Evicted(sessions), owner), OwnedBy(Capped(sessions), owner));
    }
  }

  lemma FewerAreLater(sessions: Table, group: set<string>, id: string)
    requires id in group && id in sessions
    ensures |LaterIn(sessions, group, sessions[id])| < |group|
  {
    SelfLe(sessions[id]);
    SmallerOrEqual(LaterIn(sessions, group, sessions[id]), group - {id});
  }

  lemma NonePastTheTable(sessions: Table, count: nat)
    requires |sessions| <= count
    ensures MostRecent(sessions, count) == sessions
  {
    forall id | id in sessions ensures |LaterIn(sessions, sessions.Keys, sessions[id])| < count {
      FewerAreLater(sessions, sessions.Keys, id);
    }
  }

  /** A settled table is left as it is: the second eviction of an initialize changes nothing. */
  lemma SettledStays(sessions: Table)
    requires Settled(sessions)
    ensures Evicted(sessions) == sessions
  {
    hide LaterIn;
    forall id | id in sessions ensures !PastOwnersCap(sessions, sessions[id]) {
      if sessions[id].owner.Some? {
        FewerAreLater(sessions, OwnedBy(sessions, sessions[id].owner.value), id);
      }
    }
    assert Capped(sessions) == sessions;
    NonePastTheTable(sessions, MAX_SESSIONS);
  }

  /** The session just used stays. */
  lemma NewestStays(sessions: Table, id: string)
    requires id in sessions && forall other | other in sessions :: !Later(sessions[other], sessions[id])
    ensures id in Evicted(sessions)
  {
  }

  // ---- An operator's flood ------------------------------------------------------------------------------------

  /** Everybody else's sessions, those nobody owns among them. */
  function Others(sessions: Table, owner: string): Table {
    map id | id in sessions && sessions[id].owner != Some(owner) :: sessions[id]
  }

  /** A table in which only one operator may be over its cap. */
  ghost predicate OthersWithinCaps(sessions: Table, owner: string) {
    IsTable(sessions) && forall other | other != owner :: |OwnedBy(sessions, other)| <= MAX_SESSIONS_PER_OWNER
  }

  lemma OthersUncapped(sessions: Table, session: Session, owner: string)
    requires OthersWithinCaps(sessions, owner) && session.id !in sessions && session.owner == Some(owner)
    ensures Others(Capped(sessions[session.id := session]), owner) == Others(sessions, owner)
  {
    hide LaterIn;
    var more := sessions[session.id := session];
    forall id | id in Others(sessions, owner) ensures !PastOwnersCap(more, more[id]) {
      if sessions[id].owner.Some? {
        var other := sessions[id].owner.value;
        assert OwnedBy(more, other) == OwnedBy(sessions, other);
        FewerAreLater(more, OwnedBy(more, other), id);
      }
    }
  }

  lemma OwnAndOthers(sessions: Table, owner: string)
    ensures |sessions| == |Others(sessions, owner)| + |OwnedBy(sessions, owner)|
  {
    assert sessions.Keys == Others(sessions, owner).Keys + OwnedBy(sessions, owner);
  }

  /** One initialize of an operator takes only its own sessions, if with its cap's worth of them all fit. */
  lemma InitializeTakesOnlyItsOwn(sessions: Table, session: Session, owner: string)
    requires OthersWithinCaps(sessions, owner) && session.id !in sessions && session.owner == Some(owner)
    requires |Others(sessions, owner)| + MAX_SESSIONS_PER_OWNER <= MAX_SESSIONS
    ensures Others(Evicted(sessions[session.id := session]), owner) == Others(sessions, owner)
  {
    hide OthersWithinCaps, Capped, Others, OwnedBy, MostRecent;
    var more := sessions[session.id := session];
    TableOfMore(sessions, session, owner);
    OwnerCapped(more, owner);
    OthersUncapped(sessions, session, owner);
    OwnAndOthers(Capped(more), owner);
    NonePastTheTable(Capped(more), MAX_SESSIONS);
  }

  function AfterAll(sessions: Table, started: seq<Session>): Table
    decreases |started|
  {
    if started == [] then sessions else AfterAll(Evicted(sessions[started[0].id := started[0]]), started[1..])
  }

  // Ids are fresh: no session started has the id of one in the table or of another.
  predicate Fresh(sessions: Table, started: seq<Session>) {
    && (forall i | 0 <= i < |started| :: started[i].id !in sessions)
    && (forall i, j | 0 <= i < j < |started| :: started[i].id != started[j].id)
  }

  /** However many sessions one operator has and opens, nobody else loses one. */
  lemma {:induction false} FloodTakesOnlyItsOwn(sessions: Table, started: seq<Session>, owner: string)
    requires OthersWithinCaps(sessions, owner) && Fresh(sessions, started)
    requires forall i | 0 <= i < |started| :: started[i].owner == Some(owner)
    requires |Others(sessions, owner)| + MAX_SESSIONS_PER_OWNER <= MAX_SESSIONS
    ensures Settled(sessions) || started != [] ==> Settled(AfterAll(sessions, started))
    ensures Others(AfterAll(sessions, started), owner) == Others(sessions, owner)
    decreases |started|
  {
    hide Settled, OthersWithinCaps, Evicted, Others;
    if started == [] {
    } else {
      var more := sessions[started[0].id := started[0]];
      TableOfMore(sessions, started[0], owner);
      EvictionSettles(more);
      SettledForOthers(Evicted(more), owner);
      InitializeTakesOnlyItsOwn(sessions, started[0], owner);
      EvictionAddsNone(more);
      FloodTakesOnlyItsOwn(Evicted(more), started[1..], owner);
    }
  }

  lemma TableOfMore(sessions: Table, session: Session, owner: string)
    requires OthersWithinCaps(sessions, owner)
    ensures IsTable(sessions[session.id := session])
  {
  }

  lemma SettledForOthers(sessions: Table, owner: string)
    requires Settled(sessions)
    ensures OthersWithinCaps(sessions, owner)
  {
  }

  lemma EvictionAddsNone(sessions: Table)
    ensures Evicted(sessions).Keys <= sessions.Keys
  {
  }

  /** A session with fewer more recent than an operator's cap, even if all to come are, stays. */
  lemma {:induction false} StaysThrough(sessions: Table, started: seq<Session>, id: string)
    requires IsTable(sessions) && id in sessions && Fresh(sessions, started)
    requires |LaterIn(sessions, sessions.Keys, sessions[id])| + |started| < MAX_SESSIONS_PER_OWNER
    ensures id in AfterAll(sessions, started) && AfterAll(sessions, started)[id] == sessions[id]
    decreases |started|
  {
    if started == [] {
    } else {
      var more := sessions[started[0].id := started[0]];
      StaysInOne(sessions, started[0], id);
      EvictionAddsNone(more);
      StaysThrough(Evicted(more), started[1..], id);
    }
  }

  lemma StaysInOne(sessions: Table, session: Session, id: string)
    requires id in sessions && session.id !in sessions
    requires |LaterIn(sessions, sessions.Keys, sessions[id])| + 1 < MAX_SESSIONS_PER_OWNER
    ensures
      var after := Evicted(sessions[session.id := session]);
      && id in after && after[id] == sessions[id]
      && |LaterIn(after, after.Keys, after[id])| <= |LaterIn(sessions, sessions.Keys, sessions[id])| + 1
  {
    hide Later;
    var more := sessions[session.id := session];
    var later := LaterIn(sessions, sessions.Keys, sessions[id]) + {session.id};
    assert LaterIn(more, more.Keys, more[id]) <= later;
    if more[id].owner.Some? {
      SmallerOrEqual(LaterIn(more, OwnedBy(more, more[id].owner.value), more[id]), later);
    }
    SmallerOrEqual(LaterIn(Capped(more), Capped(more).Keys, more[id]), later);
    SmallerOrEqual(LaterIn(Evicted(more), Evicted(more).Keys, more[id]), later);
  }

  /** Of two sessions of one operator, or where the one used later is of an operator within its cap, or of none, the
      one used earlier never outlives the other. */
  lemma MoreRecentlyUsedStays(sessions: Table, a: string, b: string)
    requires IsTable(sessions) && a in sessions && b in sessions && UsedBefore(sessions[b], sessions[a])
    requires || sessions[a].owner == sessions[b].owner || sessions[a].owner.None?
             || |OwnedBy(sessions, sessions[a].owner.value)| <= MAX_SESSIONS_PER_OWNER
    requires b in Evicted(sessions)
    ensures a in Evicted(sessions)
  {
    hide UsedBefore;
    UsedBeforeIsNotLater(sessions[b], sessions[a]);
    hide Later, LaterIn;
    if sessions[a].owner.Some? {
      var owned := OwnedBy(sessions, sessions[a].owner.value);
      FewerAreLater(sessions, owned, a);
      FewerThanEarlier(sessions, owned, sessions[a], sessions[b]);
    }
    FewerThanEarlier(Capped(sessions), Capped(sessions).Keys, sessions[a], sessions[b]);
  }

  lemma FewerThanEarlier(sessions: Table, group: set<string>, a: Session, b: Session)
    requires Later(a, b)
    ensures |LaterIn(sessions, group, a)| <= |LaterIn(sessions, group, b)|
  {
    SessionOrder();
    hide SessionLe;
    SmallerOrEqual(LaterIn(sessions, group, a), LaterIn(sessions, group, b));
  }

  /** The session used last stays when another is initialized, whenever it was created. */
  lemma BusySessionStays(sessions: Table, session: Session, id: string)
    requires IsTable(sessions) && id in sessions && session.id !in sessions && sessions[id].lastUsedAt != ""
    requires forall other | other in sessions && other != id ::
               && Before(sessions[other].lastUsedAt, sessions[id].lastUsedAt)
               && Before(sessions[other].createdAt, sessions[id].lastUsedAt)
    ensures id in Evicted(sessions[session.id := session])
  {
    forall other | other in sessions ensures !Later(sessions[other], sessions[id]) {
      SelfLe(sessions[id]);
      if other != id {
        UsedBeforeIsNotLater(sessions[other], sessions[id]);
      }
    }
    hide Before, Later, Evicted;
    assert LaterIn(sessions, sessions.Keys, sessions[id]) == {};
    StaysInOne(sessions, session, id);
  }

  /** Each session started is more recent than everything in the table, and than those started before it. */
  predicate EverLater(sessions: Table, started: seq<Session>) {
    && (forall i, id | 0 <= i < |started| && id in sessions :: Later(started[i], sessions[id]))
    && (forall i, j | 0 <= i < j < |started| :: Later(started[j], started[i]))
  }

  lemma LaterIsNotEarlier(a: Session, b: Session)
    requires Later(a, b)
    ensures !Later(b, a)
  {
    SessionOrder();
  }

  /** The last of a flood stay, as many as one operator's cap. */
  lemma {:induction false} LastStay(sessions: Table, started: seq<Session>, i: nat)
    requires IsTable(sessions) && Fresh(sessions, started) && EverLater(sessions, started)
    requires i < |started| <= i + MAX_SESSIONS_PER_OWNER
    ensures started[i].id in AfterAll(sessions, started) && AfterAll(sessions, started)[started[i].id] == started[i]
    decreases |started|
  {
    hide Later;
    var more := sessions[started[0].id := started[0]];
    EvictionAddsNone(more);
    if i > 0 {
      LastStay(Evicted(more), started[1..], i - 1);
    } else {
      forall id | id in more ensures !Later(more[id], started[0]) {
        SelfLe(started[0]);
        NotLaterThanItself(started[0]);
        if id in sessions {
          LaterIsNotEarlier(started[0], sessions[id]);
        }
      }
      NewestStays(more, started[0].id);
      assert LaterIn(Evicted(more), Evicted(more).Keys, started[0]) == {};
      StaysThrough(Evicted(more), started[1..], started[0].id);
    }
  }

  lemma NotLaterThanItself(session: Session)
    ensures !Later(session, session)
  {
    SelfLe(session);
  }

  lemma {:induction false} AfterAllIsTable(sessions: Table, started: seq<Session>)
    requires IsTable(sessions) && started != []
    ensures Settled(AfterAll(sessions, started))
    decreases |started|
  {
    hide Settled, Evicted;
    var more := sessions[started[0].id := started[0]];
    EvictionSettles(more);
    if |started| == 1 {
    } else {
      SettledIsTable(Evicted(more));
      AfterAllIsTable(Evicted(more), started[1..]);
    }
  }

  lemma SettledIsTable(sessions: Table)
    requires Settled(sessions)
    ensures IsTable(sessions)
  {
  }

  /** Where they do not fit, a long enough flood takes somebody else's. */
  lemma LargeFloodTakesOthers(sessions: Table, started: seq<Session>, owner: string)
    requires Settled(sessions) && Fresh(sessions, started) && EverLater(sessions, started)
    requires forall i | 0 <= i < |started| :: started[i].owner == Some(owner)
    requires |started| >= MAX_SESSIONS_PER_OWNER && |Others(sessions, owner)| + MAX_SESSIONS_PER_OWNER > MAX_SESSIONS
    ensures |Others(AfterAll(sessions, started), owner)| < |Others(sessions, owner)|
  {
    hide AfterAll, EverLater, Others;
    var after := AfterAll(sessions, started);
    AfterAllIsTable(sessions, started);
    var last := started[|started| - MAX_SESSIONS_PER_OWNER..];
    forall k | 0 <= k < |last| ensures last[k].id in OwnedBy(after, owner) {
      LastStay(sessions, started, |started| - MAX_SESSIONS_PER_OWNER + k);
    }
    CountIds(last);
    SmallerOrEqual(Ids(last), OwnedBy(after, owner));
    OwnAndOthers(after, owner);
  }
}
