/** The remaining stores of the two mail-state implementations: health records, job markers, and the two
    append-only logs, which the Map store keeps in insertion order and the tables read back by ORDER BY. */
module TwinLogs {
  import opened Prelude
  import opened MailRecords
  import Hashing

  // ---- Health records and job markers ----

  datatype Health = Health(connectionId: string, scope: TenantScope, state: string, healthy: bool,
      detail: Option<string>, checkedAt: int)

  type HealthRecords = map<string, Health>

  function ScopedHealth(m: HealthRecords, connectionId: string, scope: TenantScope): Option<Health> {
    if connectionId in m && m[connectionId].scope == scope then Some(m[connectionId]) else None
  }

  /** A read finds the record of the connection if that is in the scope asked for, and nothing else. */
  lemma ScopedReadMeans(m: HealthRecords, connectionId: string, scope: TenantScope, h: Health)
    ensures ScopedHealth(m, connectionId, scope) == Some(h)
        <==> connectionId in m && h.scope == scope && m[connectionId] == h
  {
  }

  function MemoryUpsert(m: HealthRecords, h: Health): HealthRecords {
    m[h.connectionId := h]
  }

  /** ON CONFLICT updates the observation and leaves the scope of the row as it was. */
  function TableUpsert(t: HealthRecords, h: Health): HealthRecords {
    t[h.connectionId := if h.connectionId in t then h.(scope := t[h.connectionId].scope) else h]
  }

  /** After one upsert the two stores answer every scoped read alike if and only if the record was new or
      kept its scope. */
  lemma UpsertAgreesIff(m: HealthRecords, h: Health)
    ensures (forall id, scope ::
        ScopedHealth(MemoryUpsert(m, h), id, scope) == ScopedHealth(TableUpsert(m, h), id, scope))
       <==> (h.connectionId in m ==> m[h.connectionId].scope == h.scope)
  {
    if h.connectionId in m && m[h.connectionId].scope != h.scope {
      assert ScopedHealth(MemoryUpsert(m, h), h.connectionId, h.scope)
          != ScopedHealth(TableUpsert(m, h), h.connectionId, h.scope);
    }
  }

  // ---- Sorting ----

  ghost predicate Asymmetric<T(!new)>(before: (T, T) -> bool) {
    forall x, y :: before(x, y) ==> !before(y, x)
  }

  ghost predicate SortedBy<T(!new)>(before: (T, T) -> bool, xs: seq<T>) {
    forall i, j | 0 <= i < j < |xs| :: before(xs[i], xs[j])
  }

  lemma TailOf<T>(a: seq<T>)
    requires a != []
    ensures a == [a[0]] + a[1..] && multiset(a[1..]) == multiset(a) - multiset{a[0]}
  {
    assert a == [a[0]] + a[1..];
  }

  lemma HeadsEqual<T(!new)>(before: (T, T) -> bool, a: seq<T>, b: seq<T>)
    requires Asymmetric(before) && SortedBy(before, a) && SortedBy(before, b) && multiset(a) == multiset(b)
    requires a != [] && b != []
    ensures a[0] == b[0]
  {
    assert a[0] in multiset(b) && b[0] in multiset(a);
    var i :| 0 <= i < |b| && b[i] == a[0];
    var j :| 0 <= j < |a| && a[j] == b[0];
    assert i == 0 || j == 0;
  }

  /** There is only one way to sort. */
  lemma {:induction false} SortedOnce<T(!new)>(before: (T, T) -> bool, a: seq<T>, b: seq<T>)
    requires Asymmetric(before) && SortedBy(before, a) && SortedBy(before, b) && multiset(a) == multiset(b)
    ensures a == b
  {
    assert |multiset(a)| == |a| && |multiset(b)| == |b|;
    if a == [] {
    } else {
      HeadsEqual(before, a, b);
      TailOf(a);
      TailOf(b);
      SortedOnce(before, a[1..], b[1..]);
    }
  }

  // ---- Reconciliation records: stable sort against ORDER BY checked_at, id ----

  /** A row of mail_reconciliation; ids are assigned in insertion order. */
  datatype Row = Row(id: nat, record: ReconciliationRecord)

  /** ORDER BY checked_at, id. */
  predicate RowBefore(a: Row, b: Row) {
    a.record.checkedAt < b.record.checkedAt || (a.record.checkedAt == b.record.checkedAt && a.id < b.id)
  }

  /** The stable sort of the in-memory store, by the instant checked. */
  function InsertByInstant(r: Row, rows: seq<Row>): (out: seq<Row>)
    ensures multiset(out) == multiset(rows) + multiset{r}
  {
    if rows == [] then [r]
    else if r.record.checkedAt <= rows[0].record.checkedAt then [r] + rows
    else
      assert rows == [rows[0]] + rows[1..];
      [rows[0]] + InsertByInstant(r, rows[1..])
  }

  function StableSort(rows: seq<Row>): (out: seq<Row>)
    ensures multiset(out) == multiset(rows)
  {
    if rows == [] then []
    else
      assert rows == [rows[0]] + rows[1..];
      InsertByInstant(rows[0], StableSort(rows[1..]))
  }

  predicate IdsRise(rows: seq<Row>) {
    forall i, j | 0 <= i < j < |rows| :: rows[i].id < rows[j].id
  }

  lemma InFront(r: Row, rows: seq<Row>)
    requires SortedBy(RowBefore, rows) && forall i | 0 <= i < |rows| :: RowBefore(r, rows[i])
    ensures SortedBy(RowBefore, [r] + rows)
  {
  }

  lemma {:induction false} InsertKeepsQueryOrder(r: Row, rows: seq<Row>)
    requires SortedBy(RowBefore, rows) && forall i | 0 <= i < |rows| :: r.id < rows[i].id
    ensures SortedBy(RowBefore, InsertByInstant(r, rows))
  {
    if rows == [] {
    } else if r.record.checkedAt <= rows[0].record.checkedAt {
      forall i | 0 <= i < |rows| ensures RowBefore(r, rows[i]) {
        assert i > 0 ==> RowBefore(rows[0], rows[i]);
      }
      InFront(r, rows);
    } else {
      var rest := InsertByInstant(r, rows[1..]);
      InsertKeepsQueryOrder(r, rows[1..]);
      forall i | 0 <= i < |rest| ensures RowBefore(rows[0], rest[i]) {
        assert rest[i] in multiset(rest);
        assert rest[i] == r || rest[i] in rows[1..];
      }
      InFront(rows[0], rest);
    }
  }

  lemma {:induction false} StableSortIsQuery(rows: seq<Row>)
    requires IdsRise(rows)
    ensures SortedBy(RowBefore, StableSort(rows))
  {
    if rows == [] {
    } else {
      StableSortIsQuery(rows[1..]);
      var rest := StableSort(rows[1..]);
      forall i | 0 <= i < |rest| ensures rows[0].id < rest[i].id {
        assert rest[i] in multiset(rows[1..]);
        assert rest[i] in rows[1..];
      }
      InsertKeepsQueryOrder(rows[0], rest);
    }
  }

  /** Reading reconciliation records back: whatever order the rows are scanned in, ORDER BY checked_at, id
      gives what the stable sort of the insertion order gives. */
  lemma ReconciliationListsAgree(rows: seq<Row>, listed: seq<Row>)
    requires IdsRise(rows) && SortedBy(RowBefore, listed) && multiset(listed) == multiset(rows)
    ensures listed == StableSort(rows)
  {
    StableSortIsQuery(rows);
    SortedOnce(RowBefore, listed, StableSort(rows));
  }

  // ---- Audit events: insertion order against ORDER BY at, audit_id ----

  datatype Audited = Audited(auditId: string, at: int, event: AuditEvent)

  /** ORDER BY at, audit_id; audit ids are a primary key. */
  predicate AuditBefore(a: Audited, b: Audited) {
    a.at < b.at || (a.at == b.at && a.auditId != b.auditId && Hashing.StringLe(a.auditId, b.auditId))
  }

  /** An order by instants, and within one instant of every two entries exactly one first. */
  lemma AuditOrder(a: Audited, b: Audited)
    requires a.auditId != b.auditId
    ensures AuditBefore(a, b) <==> !AuditBefore(b, a)
    ensures AuditBefore(a, b) ==> a.at <= b.at
  {
    Hashing.StringLeTotal(a.auditId, b.auditId);
  }

  /** Reading the audit trail back: the table's answer is the Map store's insertion order if and only if the
      events were appended in the order of their instants, and within one instant of their ids. */
  lemma AuditReadsAgreeIff(appended: seq<Audited>, listed: seq<Audited>)
    requires SortedBy(AuditBefore, listed) && multiset(listed) == multiset(appended)
    ensures listed == appended <==> SortedBy(AuditBefore, appended)
  {
    if SortedBy(AuditBefore, appended) {
      forall x, y | AuditBefore(x, y) ensures !AuditBefore(y, x) {
        Hashing.StringLeTotal(x.auditId, y.auditId);
      }
      SortedOnce(AuditBefore, listed, appended);
    }
  }
}
