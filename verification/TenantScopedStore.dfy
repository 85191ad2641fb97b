/** Keys namespaced per (tenant, workspace), and when two namespaces are apart. */
module TenantScopedStore {
  import opened Prelude
  import opened MailRecords
  import opened Separators

  const LEGACY_BUCKET := "__legacy__"

  /** The bucket of process-local stores a scope falls into. */
  function ScopeBucketKey(scope: Option<TenantScope>): string {
    if scope.Some? then scope.value.tenantId + ":" + scope.value.workspaceId else LEGACY_BUCKET
  }

  predicate HasDotDot(s: string) {
    exists i | 0 <= i < |s| - 1 :: s[i] == '.' && s[i + 1] == '.'
  }

  predicate ValidSegment(s: string) {
    s != "" && '/' !in s && !HasDotDot(s)
  }

  function Prefix(scope: TenantScope): string {
    scope.tenantId + ":" + scope.workspaceId + ":"
  }

  datatype SegmentError = InvalidTenantId | InvalidWorkspaceId

  function ScopedKey(key: string, scope: Option<TenantScope>): Result<string, SegmentError> {
    if scope.None? then Ok(key)
    else if !ValidSegment(scope.value.tenantId) then Err(InvalidTenantId)
    else if !ValidSegment(scope.value.workspaceId) then Err(InvalidWorkspaceId)
    else Ok(Prefix(scope.value) + key)
  }

  /** A path would not survive it as one segment. */
  ghost predicate BadSegment(s: string) {
    s == "" || '/' in s || exists before, after :: s == before + ".." + after
  }

  lemma BadSegmentIff(s: string)
    ensures BadSegment(s) <==> !ValidSegment(s)
  {
    if before, after :| s == before + ".." + after {
      assert s[|before|] == '.' && s[|before| + 1] == '.';
    }
    if i :| 0 <= i < |s| - 1 && s[i] == '.' && s[i + 1] == '.' {
      assert s == s[..i] + ".." + s[i + 2..];
    }
  }

  /** The key itself without a scope; tenant, workspace and key with one, unless a segment is bad, the tenant's
      being told first. */
  lemma ScopedKeyMeans(key: string, scope: Option<TenantScope>)
    ensures scope.None? ==> ScopedKey(key, scope) == Ok(key)
    ensures scope.Some? ==>
      var tenant, workspace := scope.value.tenantId, scope.value.workspaceId;
      && (ScopedKey(key, scope) == Err(InvalidTenantId) <==> BadSegment(tenant))
      && (ScopedKey(key, scope) == Err(InvalidWorkspaceId) <==> !BadSegment(tenant) && BadSegment(workspace))
      && (!BadSegment(tenant) && !BadSegment(workspace) ==>
           ScopedKey(key, scope) == Ok(tenant + ":" + workspace + ":" + key))
  {
    if scope.Some? {
      BadSegmentIff(scope.value.tenantId);
      BadSegmentIff(scope.value.workspaceId);
    }
  }

  lemma FirstColon(a: string, rest1: string, b: string, rest2: string)
    requires ':' !in a && ':' !in b && a + ":" + rest1 == b + ":" + rest2
    ensures a == b && rest1 == rest2
  {
    CountFree(':', a);
    CountFree(':', b);
    SplitAgain(':', a, rest1, b, rest2);
  }

  predicate Plain(scope: TenantScope) {
    ':' !in scope.tenantId && ':' !in scope.workspaceId
  }

  /** The workspace is named after its tenant, as in tenant:suffix. */
  predicate TenantNamed(scope: TenantScope, suffix: string) {
    ':' !in scope.tenantId && ':' !in suffix && scope.workspaceId == scope.tenantId + ":" + suffix
  }

  /** Buckets of tenants with equally many colons in their ids: one bucket is one scope, and unscoped calls have
      a bucket of their own. */
  lemma BucketsApart(a: Option<TenantScope>, b: Option<TenantScope>)
    requires a.Some? && b.Some? ==> Count(':', a.value.tenantId) == Count(':', b.value.tenantId)
    ensures ScopeBucketKey(a) == ScopeBucketKey(b) <==> a == b
  {
    if a.Some? { ScopedIsNotLegacy(a.value); }
    if b.Some? { ScopedIsNotLegacy(b.value); }
    if a.Some? && b.Some? && ScopeBucketKey(a) == ScopeBucketKey(b) {
      SplitAgain(':', a.value.tenantId, a.value.workspaceId, b.value.tenantId, b.value.workspaceId);
    }
  }

  lemma ScopedIsNotLegacy(s: TenantScope)
    ensures ScopeBucketKey(Some(s)) != ScopeBucketKey(None)
  {
    assert ScopeBucketKey(Some(s))[|s.tenantId|] == ':';
    assert ':' !in LEGACY_BUCKET;
  }

  /** Colon-free tenants and workspaces: the scoped key gives back scope and key, whatever the keys are. */
  lemma PlainScopesInjective(k1: string, s1: TenantScope, k2: string, s2: TenantScope)
    requires Plain(s1) && Plain(s2)
    requires ScopedKey(k1, Some(s1)).Ok? && ScopedKey(k1, Some(s1)) == ScopedKey(k2, Some(s2))
    ensures s1 == s2 && k1 == k2
  {
    var r1, r2 := s1.workspaceId + ":" + k1, s2.workspaceId + ":" + k2;
    assert Prefix(s1) + k1 == s1.tenantId + ":" + r1;
    assert Prefix(s2) + k2 == s2.tenantId + ":" + r2;
    FirstColon(s1.tenantId, r1, s2.tenantId, r2);
    FirstColon(s1.workspaceId, k1, s2.workspaceId, k2);
  }

  /** The same for workspaces named after their tenants. */
  lemma TenantNamedScopesInjective(k1: string, s1: TenantScope, x1: string, k2: string, s2: TenantScope, x2: string)
    requires TenantNamed(s1, x1) && TenantNamed(s2, x2)
    requires ScopedKey(k1, Some(s1)).Ok? && ScopedKey(k1, Some(s1)) == ScopedKey(k2, Some(s2))
    ensures s1 == s2 && k1 == k2
  {
    var q1, q2 := x1 + ":" + k1, x2 + ":" + k2;
    var r1, r2 := s1.tenantId + ":" + q1, s2.tenantId + ":" + q2;
    assert Prefix(s1) + k1 == s1.tenantId + ":" + r1;
    assert Prefix(s2) + k2 == s2.tenantId + ":" + r2;
    FirstColon(s1.tenantId, r1, s2.tenantId, r2);
    FirstColon(s1.tenantId, q1, s2.tenantId, q2);
    FirstColon(x1, k1, x2, k2);
  }

  /** For any two scopes at all: some pair of keys collides exactly when one prefix starts the other. */
  lemma ScopesCollideIff(s1: TenantScope, s2: TenantScope)
    requires ValidSegment(s1.tenantId) && ValidSegment(s1.workspaceId) && ValidSegment(s2.tenantId)
    requires ValidSegment(s2.workspaceId)
    ensures (exists k1, k2 :: ScopedKey(k1, Some(s1)) == ScopedKey(k2, Some(s2)))
       <==> Prefix(s1) <= Prefix(s2) || Prefix(s2) <= Prefix(s1)
  {
    var p1, p2 := Prefix(s1), Prefix(s2);
    if k1, k2 :| ScopedKey(k1, Some(s1)) == ScopedKey(k2, Some(s2)) {
      assert p1 + k1 == p2 + k2;
      if |p1| <= |p2| {
        assert p1 == (p1 + k1)[..|p1|] == p2[..|p1|];
      } else {
        assert p2 == (p2 + k2)[..|p2|] == p1[..|p2|];
      }
    }
    if p1 <= p2 {
      assert p1 + p2[|p1|..] == p2 + "";
      assert ScopedKey(p2[|p1|..], Some(s1)) == ScopedKey("", Some(s2));
    } else if p2 <= p1 {
      assert p2 + p1[|p2|..] == p1 + "";
      assert ScopedKey("", Some(s1)) == ScopedKey(p1[|p2|..], Some(s2));
    }
  }

  /** So a plain scope and a tenant-named one of the same tenant share keys exactly when the plain
      workspace carries the tenant's own name. */
  lemma MixedScopesCollideIff(plain: TenantScope, named: TenantScope, suffix: string)
    requires Plain(plain) && TenantNamed(named, suffix)
    requires ValidSegment(plain.tenantId) && ValidSegment(plain.workspaceId) && ValidSegment(named.tenantId)
    requires ValidSegment(named.workspaceId)
    ensures (exists k1, k2 :: ScopedKey(k1, Some(plain)) == ScopedKey(k2, Some(named)))
       <==> plain.tenantId == named.tenantId == plain.workspaceId
  {
    forall k1, k2 | ScopedKey(k1, Some(plain)) == ScopedKey(k2, Some(named))
      ensures plain.tenantId == named.tenantId == plain.workspaceId
    {
      var r1, q2 := plain.workspaceId + ":" + k1, suffix + ":" + k2;
      var r2 := named.tenantId + ":" + q2;
      assert Prefix(plain) + k1 == plain.tenantId + ":" + r1;
      assert Prefix(named) + k2 == named.tenantId + ":" + r2;
      FirstColon(plain.tenantId, r1, named.tenantId, r2);
      FirstColon(plain.workspaceId, k1, named.tenantId, q2);
    }
    if plain.tenantId == named.tenantId == plain.workspaceId {
      assert Prefix(plain) + (suffix + ":") == Prefix(named) + "";
      assert ScopedKey(suffix + ":", Some(plain)) == ScopedKey("", Some(named));
    }
  }
}
