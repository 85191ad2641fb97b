/** Ordered migrations, applied in one transaction under an exclusive lock,
    so concurrent runs are one after the other. */
module Migrations {

  datatype Migration = Migration(id: string, sql: string)

  /** A commit can fail outright, or take effect and still be reported as failed. */
  datatype CommitResult = Confirmed | Refused | AppliedButUnconfirmed

  /** What goes wrong in one run: a statement before the loop, or the SQL or the ledger row of some migrations. */
  datatype Faults = Faults(beforeLoop: bool, broken: set<string>, commit: CommitResult)

  predicate Distinct(list: seq<Migration>) {
    forall i, j | 0 <= i < j < |list| :: list[i].id != list[j].id
  }

  function Ids(list: seq<Migration>): set<string> {
    set m | m in list :: m.id
  }

  /** The first n entries of the list that the ledger does not name. */
  function Missing(ledger: set<string>, list: seq<Migration>, n: nat): seq<Migration>
    requires n <= |list|
  {
    if n == 0 then []
    else Missing(ledger, list, n - 1) + if list[n - 1].id in ledger then [] else [list[n - 1]]
  }

  function AllMissing(ledger: set<string>, list: seq<Migration>): seq<Migration> {
    Missing(ledger, list, |list|)
  }

  /** A run takes effect when nothing breaks and no id still missing is listed twice. */
  predicate TakesEffect(executed: seq<Migration>, list: seq<Migration>, faults: Faults) {
    var missing := AllMissing(Ids(executed), list);
    !faults.beforeLoop && faults.commit != Refused && Distinct(missing)
        && forall m | m in missing :: m.id !in faults.broken
  }

  /** A run is all or nothing. */
  function After(executed: seq<Migration>, list: seq<Migration>, faults: Faults): seq<Migration> {
    if TakesEffect(executed, list, faults) then executed + AllMissing(Ids(executed), list) else executed
  }

  class MailDatabase {
    var ledger: set<string>
    var executed: seq<Migration>

    constructor ()
      ensures Valid() && executed == []
    {
      ledger, executed := {}, [];
    }

    /** The ledger names exactly the migrations whose SQL is committed, each committed once. */
    ghost predicate Valid()
      reads this
    {
      ledger == Ids(executed) && Distinct(executed)
    }

    method RunMailMigrations(list: seq<Migration>, faults: Faults) returns (ok: bool)
      requires Valid()
      modifies this
      ensures Valid()
      ensures executed == After(old(executed), list, faults)
      ensures ok <==> TakesEffect(old(executed), list, faults) && faults.commit == Confirmed
    {
      if faults.beforeLoop { return false; }
      var applied, rows, done := ledger, ledger, executed;
      for i := 0 to |list|
        invariant ledger == old(ledger) == applied && executed == old(executed)
        invariant Progress(executed, list, i, faults, rows, done)
      {
        if list[i].id !in applied {
          if list[i].id in faults.broken {
            BrokenStops(executed, list, i, faults);
            return false;
          }
          if list[i].id in rows {
            RepeatedStops(executed, list, i, faults);
            return false;
          }
          Stepped(executed, list, i, faults, rows, done);
          done, rows := done + [list[i]], rows + {list[i].id};
        }
      }
      Finished(executed, list, faults, rows, done);
      if faults.commit.Refused? { return false; }
      ledger, executed := rows, done;
      return faults.commit.Confirmed?;
    }
  }

  /** The open transaction after the first i entries of the list. */
  ghost predicate Progress(executed: seq<Migration>, list: seq<Migration>, i: nat, faults: Faults, rows: set<string>,
                           done: seq<Migration>)
  {
    && i <= |list| && rows == Ids(done) && Distinct(done)
    && done == executed + Missing(Ids(executed), list, i)
    && forall m | m in Missing(Ids(executed), list, i) :: m.id !in faults.broken
  }

  lemma Stepped(executed: seq<Migration>, list: seq<Migration>, i: nat, faults: Faults, rows: set<string>,
                done: seq<Migration>)
    requires i < |list| && Progress(executed, list, i, faults, rows, done)
    requires list[i].id !in Ids(executed) && list[i].id !in faults.broken && list[i].id !in rows
    ensures Progress(executed, list, i + 1, faults, rows + {list[i].id}, done + [list[i]])
  {
    DoneGrows(done, list[i]);
  }

  lemma Finished(executed: seq<Migration>, list: seq<Migration>, faults: Faults, rows: set<string>,
                 done: seq<Migration>)
    requires Progress(executed, list, |list|, faults, rows, done)
    ensures done == executed + AllMissing(Ids(executed), list)
    ensures TakesEffect(executed, list, faults) <==> !faults.beforeLoop && faults.commit != Refused
  {
    SuffixDistinct(executed, AllMissing(Ids(executed), list));
  }

  lemma BrokenStops(executed: seq<Migration>, list: seq<Migration>, i: nat, faults: Faults)
    requires i < |list| && list[i].id !in Ids(executed) && list[i].id in faults.broken
    ensures !TakesEffect(executed, list, faults)
  {
    MissingStays(Ids(executed), list, i + 1, |list|);
    assert list[i] in Missing(Ids(executed), list, i + 1);
  }

  lemma {:induction false} MissingStays(ledger: set<string>, list: seq<Migration>, i: nat, n: nat)
    requires i <= n <= |list|
    ensures Missing(ledger, list, i) <= Missing(ledger, list, n)
  {
    if i == n {
    } else {
      MissingStays(ledger, list, i, n - 1);
    }
  }

  lemma SuffixDistinct(a: seq<Migration>, b: seq<Migration>)
    requires Distinct(a + b)
    ensures Distinct(b)
  {
    forall i, j | 0 <= i < j < |b| ensures b[i].id != b[j].id {
      assert (a + b)[|a| + i] == b[i] && (a + b)[|a| + j] == b[j];
    }
  }

  lemma DoneGrows(done: seq<Migration>, m: Migration)
    requires Distinct(done) && m.id !in Ids(done)
    ensures Distinct(done + [m]) && Ids(done + [m]) == Ids(done) + {m.id}
  {
    assert forall i | 0 <= i < |done| :: done[i] in done && done[i].id in Ids(done);
    assert forall x :: x in done + [m] <==> x in done || x == m;
  }

  /** An id inserted twice in one run: the ledger's primary key refuses it, and it was listed twice. */
  lemma RepeatedStops(executed: seq<Migration>, list: seq<Migration>, i: nat, faults: Faults)
    requires i < |list| && list[i].id !in Ids(executed)
    requires list[i].id in Ids(executed + Missing(Ids(executed), list, i))
    ensures !TakesEffect(executed, list, faults)
  {
    MissingStays(Ids(executed), list, i + 1, |list|);
    assert Missing(Ids(executed), list, i + 1) == Missing(Ids(executed), list, i) + [list[i]];
    ListedTwice(executed, Missing(Ids(executed), list, i), list[i], AllMissing(Ids(executed), list));
  }

  lemma ListedTwice(executed: seq<Migration>, before: seq<Migration>, next: Migration, all: seq<Migration>)
    requires next.id !in Ids(executed) && next.id in Ids(executed + before) && before + [next] <= all
    ensures !Distinct(all)
  {
    var m :| m in executed + before && m.id == next.id;
    assert m in executed ==> m.id in Ids(executed);
    var k :| 0 <= k < |before| && before[k] == m;
    TwiceInPrefix(before + [next], all, k, |before|);
  }

  lemma TwiceInPrefix(a: seq<Migration>, b: seq<Migration>, i: nat, j: nat)
    requires a <= b && i < j < |a| && a[i].id == a[j].id
    ensures !Distinct(b)
  {
    assert b[i] == a[i] && b[j] == a[j];
  }

  // ---- Any number of runs, by deployments of different ages ----

  /** A run by a deployment that knows the first `known` migrations of the final list. */
  datatype Deployment = Deployment(known: nat, faults: Faults)

  ghost function AfterRuns(executed: seq<Migration>, final: seq<Migration>, runs: seq<Deployment>): seq<Migration>
    requires forall r | r in runs :: r.known <= |final|
    decreases runs
  {
    if runs == [] then executed
    else AfterRuns(After(executed, final[..runs[0].known], runs[0].faults), final, runs[1..])
  }

  lemma IdIn(final: seq<Migration>, k: nat, i: nat)
    requires Distinct(final) && k <= |final| && i < |final|
    ensures final[i].id in Ids(final[..k]) <==> i < k
  {
    assert i < k ==> final[i] in final[..k];
    assert forall m | m in final[..k] :: exists j :: 0 <= j < k && final[j] == m;
  }

  lemma SliceGrows(final: seq<Migration>, k: nat, n: nat)
    requires 0 < n <= |final|
    ensures k < n ==> (if k < n - 1 then final[k..n - 1] else []) + [final[n - 1]] == final[k..n]
  {
  }

  lemma {:induction false} MissingFrom(ledger: set<string>, final: seq<Migration>, list: seq<Migration>, k: nat, n: nat)
    requires n <= |list| <= |final| && forall i | 0 <= i < n :: list[i] == final[i] && (list[i].id in ledger <==> i < k)
    ensures Missing(ledger, list, n) == if k < n then final[k..n] else []
  {
    if n == 0 {
    } else {
      MissingFrom(ledger, final, list, k, n - 1);
      assert list[n - 1] == final[n - 1] && (list[n - 1].id in ledger <==> n - 1 < k);
      SliceGrows(final, k, n);
    }
  }

  lemma MissingOfPrefix(final: seq<Migration>, k: nat, n: nat)
    requires Distinct(final) && k <= |final| && n <= |final|
    ensures AllMissing(Ids(final[..k]), final[..n]) == if k < n then final[k..n] else []
  {
    var ledger, list := Ids(final[..k]), final[..n];
    forall i | 0 <= i < n ensures list[i] == final[i] && (list[i].id in ledger <==> i < k) {
      IdIn(final, k, i);
    }
    MissingFrom(ledger, final, list, k, n);
  }

  /** One run leaves a prefix of the final list, at least as long as before. */
  lemma RunKeepsPrefix(final: seq<Migration>, k: nat, r: Deployment) returns (next: nat)
    requires Distinct(final) && k <= |final| && r.known <= |final|
    ensures k <= next <= |final| && After(final[..k], final[..r.known], r.faults) == final[..next]
    ensures r.faults == Faults(false, {}, Confirmed) ==> next >= r.known
  {
    MissingOfPrefix(final, k, r.known);
    next := if TakesEffect(final[..k], final[..r.known], r.faults) && k < r.known then r.known else k;
    PrefixPlus(final, k, r.known);
    SliceDistinct(final, k, r.known);
  }

  lemma PrefixPlus(final: seq<Migration>, k: nat, n: nat)
    requires k <= |final| && n <= |final|
    ensures final[..k] + (if k < n then final[k..n] else []) == if k < n then final[..n] else final[..k]
  {
  }

  lemma SliceDistinct(final: seq<Migration>, k: nat, n: nat)
    requires Distinct(final) && k <= |final| && n <= |final|
    ensures Distinct(if k < n then final[k..n] else [])
  {
  }

  /** However many deployments run, old or new, failing or not: what is committed is always a first part of
      the final list, so each migration once and in order, and nothing committed is ever lost. */
  lemma {:induction false} RunsCommitAPrefix(final: seq<Migration>, k: nat, runs: seq<Deployment>) returns (m: nat)
    requires Distinct(final) && k <= |final| && forall r | r in runs :: r.known <= |final|
    ensures k <= m <= |final| && AfterRuns(final[..k], final, runs) == final[..m]
    ensures forall i | 0 <= i < |runs| :: runs[i].faults == Faults(false, {}, Confirmed) ==> m >= runs[i].known
    decreases runs
  {
    if runs == [] {
      m := k;
    } else {
      var r := runs[0];
      var next := RunKeepsPrefix(final, k, r);
      m := RunsCommitAPrefix(final, next, runs[1..]);
    }
  }

  /** A list that names one id twice never applies that id: every run with it fails and leaves nothing. */
  lemma RepeatedIdNeverApplies(executed: seq<Migration>, list: seq<Migration>, i: nat, j: nat, faults: Faults)
    requires i < j < |list| && list[i].id == list[j].id && list[i].id !in Ids(executed)
    ensures After(executed, list, faults) == executed && !TakesEffect(executed, list, faults)
  {
    var applied := Ids(executed);
    MissingStays(applied, list, i + 1, j);
    assert list[i] in Missing(applied, list, i + 1);
    assert list[i] in executed + Missing(applied, list, j);
    RepeatedStops(executed, list, j, faults);
  }

  // ---- The list as it stands ----

  const IDS: seq<string> := [
    "001_mail_oauth_states",
    "002_mail_connections",
    "003_mail_credentials",
    "004_mail_connection_health",
    "005_mail_send_approvals",
    "006_mail_reconciliation",
    "007_mail_job_markers",
    "008_mail_audit_events",
    "009_indexes",
    "010_auth_users",
    "011_workspace_memberships",
    "012_auth_sessions",
    "013_service_identities",
    "014_identity_indexes",
    "015_service_identities_workspaces",
    "016_mail_connection_health_state",
    "017_aaliyah_documents",
    "018_aaliyah_append_logs",
    "019_aaliyah_followup_approvals"]

  /** The number an id starts with. */
  function Number(id: string): int {
    if |id| < 3 then 0 else (id[1] as int - '0' as int) * 10 + id[2] as int - '0' as int
  }

  lemma FirstNumbers()
    ensures forall i | 0 <= i < 10 :: Number(IDS[i]) == i + 1
  {
    assert Number(IDS[0]) == 1;
    assert Number(IDS[1]) == 2;
    assert Number(IDS[2]) == 3;
    assert Number(IDS[3]) == 4;
    assert Number(IDS[4]) == 5;
    assert Number(IDS[5]) == 6;
    assert Number(IDS[6]) == 7;
    assert Number(IDS[7]) == 8;
    assert Number(IDS[8]) == 9;
    assert Number(IDS[9]) == 10;
  }

  lemma LastNumbers()
    ensures |IDS| == 19 && forall i | 10 <= i < 19 :: Number(IDS[i]) == i + 1
  {
    assert Number(IDS[10]) == 11;
    assert Number(IDS[11]) == 12;
    assert Number(IDS[12]) == 13;
    assert Number(IDS[13]) == 14;
    assert Number(IDS[14]) == 15;
    assert Number(IDS[15]) == 16;
    assert Number(IDS[16]) == 17;
    assert Number(IDS[17]) == 18;
    assert Number(IDS[18]) == 19;
  }

  /** The listed ids are numbered one to nineteen in order, so the theorem above applies to them. */
  lemma ListedIdsAreDistinct(list: seq<Migration>)
    requires |list| == |IDS| && forall i | 0 <= i < |list| :: list[i].id == IDS[i]
    ensures |list| == 19 && Distinct(list) && forall i | 0 <= i < |list| :: Number(list[i].id) == i + 1
  {
    FirstNumbers();
    LastNumbers();
    forall i | 0 <= i < |list| ensures Number(list[i].id) == i + 1 {
      assert Number(IDS[i]) == i + 1;
    }
  }
}
