/** The in-memory identity backend: users, memberships, sessions and service identities. */
module IdentityState {
  import opened Prelude
  import opened MailRecords
  import opened Separators
  import Hashing

  datatype User = User(id: string, active: bool)

  datatype Membership = Membership(userId: string, tenantId: string, workspaceId: string, roleIds: seq<string>,
      active: bool, revokedAt: Option<int>)

  datatype Session = Session(
    id: string, userId: string, tenantId: string, tokenHash: Digest, authStrength: string,
    createdAt: int, expiresAt: int, lastSeenAt: int, revokedAt: Option<int>)

  datatype Service = Service(id: string, tenantId: Option<string>, name: string, workspaceIds: seq<string>,
      permissionIds: seq<string>, credentialHash: Digest, active: bool)

  type Users = map<string, User>
  type Sessions = map<string, Session>
  type Memberships = map<string, Membership>
  type Services = map<string, Service>

  function MembershipKey(userId: string, tenantId: string, workspaceId: string): string {
    userId + "|" + tenantId + "|" + workspaceId
  }

  /** Ids with equally many bars in them, as those without any. */
  predicate OneShape(a: Membership, b: Membership) {
    && Count('|', a.userId) == Count('|', b.userId) && Count('|', a.tenantId) == Count('|', b.tenantId)
  }

  /** Then one key means one user, tenant and workspace. */
  lemma MembershipKeysDiffer(a: Membership, b: Membership)
    requires OneShape(a, b)
    requires MembershipKey(a.userId, a.tenantId, a.workspaceId) == MembershipKey(b.userId, b.tenantId, b.workspaceId)
    ensures a.userId == b.userId && a.tenantId == b.tenantId && a.workspaceId == b.workspaceId
  {
    var rest1, rest2 := a.tenantId + "|" + a.workspaceId, b.tenantId + "|" + b.workspaceId;
    assert MembershipKey(a.userId, a.tenantId, a.workspaceId) == a.userId + "|" + rest1;
    assert MembershipKey(b.userId, b.tenantId, b.workspaceId) == b.userId + "|" + rest2;
    SplitAgain('|', a.userId, rest1, b.userId, rest2);
    SplitAgain('|', a.tenantId, a.workspaceId, b.tenantId, b.workspaceId);
  }

  ghost predicate SessionsKeyed(m: Sessions) {
    && (forall id | id in m :: m[id].id == id)
    && (forall a, b | a in m && b in m && m[a].tokenHash == m[b].tokenHash :: a == b)
  }

  ghost predicate MembershipsKeyed(m: Memberships) {
    forall k | k in m :: k == MembershipKey(m[k].userId, m[k].tenantId, m[k].workspaceId)
  }

  ghost predicate ServicesKeyed(m: Services) {
    forall a, b | a in m && b in m && m[a].credentialHash == m[b].credentialHash :: a == b
  }

  // ---- What the session operations do ----

  ghost predicate HasToken(m: Sessions, h: Digest) {
    exists id :: id in m && m[id].tokenHash == h
  }

  /** The session a token belongs to. */
  ghost function SessionOf(m: Sessions, h: Digest): (s: Session)
    requires HasToken(m, h)
    ensures exists id :: id in m && m[id] == s && s.tokenHash == h
  {
    var id :| id in m && m[id].tokenHash == h;
    m[id]
  }

  function Touch(m: Sessions, id: string, at: int): Sessions {
    if id in m then m[id := m[id].(lastSeenAt := at)] else m
  }

  function Revoke(m: Sessions, id: string, at: int): Sessions {
    if id in m && m[id].revokedAt.None? then m[id := m[id].(revokedAt := Some(at))] else m
  }

  function RevokedFor(s: Session, userId: string, at: int): Session {
    if s.userId == userId && s.revokedAt.None? then s.(revokedAt := Some(at)) else s
  }

  function RevokeAll(m: Sessions, userId: string, at: int): Sessions {
    map id | id in m :: RevokedFor(m[id], userId, at)
  }

  /** An active membership row of this user in this workspace. */
  ghost predicate ActiveRow(m: Memberships, k: string, userId: string, tenantId: string) {
    k in m && m[k].userId == userId && m[k].tenantId == tenantId && m[k].active
  }

  // ---- Rows in the order of their workspaces ----

  predicate ByWorkspace(rows: seq<Membership>) {
    forall i, j | 0 <= i < j < |rows| :: Hashing.StringLe(rows[i].workspaceId, rows[j].workspaceId)
  }

  predicate AllDifferent(rows: seq<Membership>) {
    forall i, j | 0 <= i < j < |rows| :: rows[i] != rows[j]
  }

  function InsertByWorkspace(m: Membership, rows: seq<Membership>): seq<Membership> {
    if rows == [] then [m]
    else if Hashing.StringLe(m.workspaceId, rows[0].workspaceId) then [m] + rows
    else [rows[0]] + InsertByWorkspace(m, rows[1..])
  }

  lemma InFront(m: Membership, rows: seq<Membership>)
    requires ByWorkspace(rows) && forall x | x in rows :: Hashing.StringLe(m.workspaceId, x.workspaceId)
    ensures ByWorkspace([m] + rows) && (AllDifferent(rows) && m !in rows ==> AllDifferent([m] + rows))
  {
  }

  lemma HeadStaysFirst(m: Membership, rows: seq<Membership>, longer: seq<Membership>)
    requires rows != [] && ByWorkspace(rows) && Hashing.StringLe(rows[0].workspaceId, m.workspaceId)
    requires forall x :: x in longer <==> x in rows[1..] || x == m
    ensures forall x | x in longer :: Hashing.StringLe(rows[0].workspaceId, x.workspaceId)
    ensures forall x :: x in [rows[0]] + longer <==> x in rows || x == m
    ensures AllDifferent(rows) && m !in rows ==> rows[0] !in longer
  {
    assert rows == [rows[0]] + rows[1..];
    forall x | x in longer ensures Hashing.StringLe(rows[0].workspaceId, x.workspaceId) {
      if x != m {
        var i :| 0 <= i < |rows| - 1 && rows[i + 1] == x;
      }
    }
  }

  lemma {:induction false} InsertKeepsOrder(m: Membership, rows: seq<Membership>)
    requires ByWorkspace(rows)
    ensures var longer := InsertByWorkspace(m, rows);
      && ByWorkspace(longer) && (forall x :: x in longer <==> x in rows || x == m)
      && (AllDifferent(rows) && m !in rows ==> AllDifferent(longer))
  {
    if rows == [] {
    } else if Hashing.StringLe(m.workspaceId, rows[0].workspaceId) {
      forall x | x in rows ensures Hashing.StringLe(m.workspaceId, x.workspaceId) {
        NotBefore(m, rows, x);
      }
      InFront(m, rows);
    } else {
      InsertKeepsOrder(m, rows[1..]);
      Hashing.StringLeTotal(m.workspaceId, rows[0].workspaceId);
      HeadStaysFirst(m, rows, InsertByWorkspace(m, rows[1..]));
      InFront(rows[0], InsertByWorkspace(m, rows[1..]));
    }
  }

  lemma NotBefore(m: Membership, rows: seq<Membership>, x: Membership)
    requires ByWorkspace(rows) && x in rows && Hashing.StringLe(m.workspaceId, rows[0].workspaceId)
    ensures Hashing.StringLe(m.workspaceId, x.workspaceId)
  {
    var i :| 0 <= i < |rows| && rows[i] == x;
    if i > 0 { Hashing.StringLeTransitive(m.workspaceId, rows[0].workspaceId, x.workspaceId); }
  }

  class InMemoryIdentity {
    var users: Users
    var memberships: Memberships
    var sessions: Sessions
    var services: Services

    constructor ()
      ensures users == map[] && memberships == map[] && sessions == map[] && services == map[]
      ensures Valid()
    {
      users, memberships, sessions, services := map[], map[], map[], map[];
    }

    ghost predicate Valid()
      reads this
    {
      SessionsKeyed(sessions) && MembershipsKeyed(memberships) && ServicesKeyed(services)
    }

    method GrantMembership(m: Membership)
      requires Valid()
      modifies this`memberships
      ensures Valid()
      ensures memberships == old(memberships)[MembershipKey(m.userId, m.tenantId, m.workspaceId) := m]
      ensures forall k | k in old(memberships) ::
        var row := old(memberships)[k];
        OneShape(row, m) && (row.userId, row.tenantId, row.workspaceId) != (m.userId, m.tenantId, m.workspaceId) ==>
          k in memberships && memberships[k] == row
    {
      forall k | k in memberships
        ensures
          var row := memberships[k];
          OneShape(row, m) && k == MembershipKey(m.userId, m.tenantId, m.workspaceId) ==>
            (row.userId, row.tenantId, row.workspaceId) == (m.userId, m.tenantId, m.workspaceId)
      {
        if OneShape(memberships[k], m) && k == MembershipKey(m.userId, m.tenantId, m.workspaceId) {
          MembershipKeysDiffer(memberships[k], m);
        }
      }
      memberships := memberships[MembershipKey(m.userId, m.tenantId, m.workspaceId) := m];
    }

    /** A revocation stamps the row; any other status change leaves an earlier stamp. */
    method SetMembershipStatus(userId: string, tenantId: string, workspaceId: string, active: bool, revoked: bool,
                               at: int)
      requires Valid()
      modifies this`memberships
      ensures Valid()
      ensures var k := MembershipKey(userId, tenantId, workspaceId);
        && memberships.Keys == old(memberships).Keys
        && (forall j | j in memberships && j != k :: memberships[j] == old(memberships)[j])
        && (k in memberships ==> memberships[k] == old(memberships)[k].(
              active := active, revokedAt := if revoked then Some(at) else old(memberships)[k].revokedAt))
    {
      var k := MembershipKey(userId, tenantId, workspaceId);
      if k !in memberships { return; }
      var m := memberships[k];
      memberships := memberships[k := m.(active := active, revokedAt := if revoked then Some(at) else m.revokedAt)];
    }

    /** Exactly the active rows of this user in this tenant, each once, in the order of their workspaces. */
    method ListActiveForUser(userId: string, tenantId: string) returns (rows: seq<Membership>)
      ensures forall k | ActiveRow(memberships, k, userId, tenantId) :: memberships[k] in rows
      ensures forall m | m in rows :: exists k :: ActiveRow(memberships, k, userId, tenantId) && memberships[k] == m
      ensures MembershipsKeyed(memberships) ==> AllDifferent(rows)
      ensures ByWorkspace(rows)
    {
      rows := [];
      var unvisited := memberships.Keys;
      while unvisited != {}
        invariant unvisited <= memberships.Keys
        invariant forall k | ActiveRow(memberships, k, userId, tenantId) && k !in unvisited :: memberships[k] in rows
        invariant forall m | m in rows ::
            exists k :: ActiveRow(memberships, k, userId, tenantId) && memberships[k] == m && k !in unvisited
        invariant MembershipsKeyed(memberships) ==> AllDifferent(rows)
        invariant ByWorkspace(rows)
        decreases unvisited
      {
        var k :| k in unvisited;
        var m := memberships[k];
        assert MembershipsKeyed(memberships) ==> m !in rows;
        unvisited := unvisited - {k};
        if m.userId == userId && m.tenantId == tenantId && m.active {
          assert ActiveRow(memberships, k, userId, tenantId);
          InsertKeepsOrder(m, rows);
          rows := InsertByWorkspace(m, rows);
        }
      }
    }

    method GetByTokenHash(h: Digest) returns (s: Option<Session>)
      requires Valid()
      ensures s.Some? <==> HasToken(sessions, h)
      ensures s.Some? ==> s.value == SessionOf(sessions, h) && s.value.id in sessions && sessions[s.value.id] == s.value
    {
      var unvisited := sessions.Keys;
      while unvisited != {}
        invariant unvisited <= sessions.Keys
        invariant forall id | id in sessions && id !in unvisited :: sessions[id].tokenHash != h
        decreases unvisited
      {
        var id :| id in unvisited;
        unvisited := unvisited - {id};
        if sessions[id].tokenHash == h { return Some(sessions[id]); }
      }
      return None;
    }

    method FindActiveByCredentialHash(h: Digest) returns (s: Option<Service>)
      ensures s.Some? ==> exists id ::
          id in services && services[id] == s.value && s.value.active && s.value.credentialHash == h
      ensures s.None? ==> forall id | id in services :: !(services[id].active && services[id].credentialHash == h)
    {
      var unvisited := services.Keys;
      while unvisited != {}
        invariant unvisited <= services.Keys
        invariant forall id | id in services && id !in unvisited ::
            !(services[id].active && services[id].credentialHash == h)
        decreases unvisited
      {
        var id :| id in unvisited;
        unvisited := unvisited - {id};
        if services[id].credentialHash == h && services[id].active { return Some(services[id]); }
      }
      return None;
    }

    method TouchSession(id: string, at: int)
      modifies this`sessions
      ensures sessions == Touch(old(sessions), id, at) && sessions.Keys == old(sessions).Keys
      ensures forall k | k in sessions && k != id :: sessions[k] == old(sessions)[k]
      ensures id in sessions ==> sessions[id] == old(sessions)[id].(lastSeenAt := at)
    {
      if id in sessions { sessions := sessions[id := sessions[id].(lastSeenAt := at)]; }
    }

    method RevokeSession(id: string, at: int)
      modifies this`sessions
      ensures sessions == Revoke(old(sessions), id, at) && sessions.Keys == old(sessions).Keys
      ensures forall k | k in sessions && k != id :: sessions[k] == old(sessions)[k]
      ensures id in sessions ==>
        var before := old(sessions)[id];
        sessions[id] == if before.revokedAt.Some? then before else before.(revokedAt := Some(at))
    {
      if id in sessions && sessions[id].revokedAt.None? {
        sessions := sessions[id := sessions[id].(revokedAt := Some(at))];
      }
    }

    method RevokeAllForUser(userId: string, at: int)
      modifies this`sessions
      ensures sessions == RevokeAll(old(sessions), userId, at) && sessions.Keys == old(sessions).Keys
      ensures forall k | k in sessions ::
        var before := old(sessions)[k];
        sessions[k] == if before.userId != userId || before.revokedAt.Some? then before
                       else before.(revokedAt := Some(at))
    {
      var unvisited := sessions.Keys;
      while unvisited != {}
        invariant unvisited <= sessions.Keys == old(sessions).Keys
        invariant forall id | id in sessions ::
          sessions[id] == if id in unvisited then old(sessions)[id] else RevokedFor(old(sessions)[id], userId, at)
        decreases unvisited
      {
        var id :| id in unvisited;
        if sessions[id].userId == userId && sessions[id].revokedAt.None? {
          sessions := sessions[id := sessions[id].(revokedAt := Some(at))];
        }
        unvisited := unvisited - {id};
      }
    }
  }
}
