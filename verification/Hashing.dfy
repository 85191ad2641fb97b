/** recipientHash and bodyHash, and exactly what each of them binds. */
module Hashing {
  import opened MailRecords

  // ---- Normalisation of one address: trim, then lower-case ----

  /** White space and line terminators, as String.prototype.trim strips them. */
  predicate IsSpace(c: char) {
    var code := c as int;
    || 9 <= code <= 13 || 0x2000 <= code <= 0x200A
    || code in {32, 0xA0, 0x1680, 0x2028, 0x2029, 0x202F, 0x205F, 0x3000, 0xFEFF}
  }

  function LowerChar(c: char): char {
    if 'A' <= c <= 'Z' then (c as int + 32) as char else c
  }

  function TrimLeft(s: string): string {
    if s != "" && IsSpace(s[0]) then TrimLeft(s[1..]) else s
  }

  function TrimRight(s: string): string {
    if s != "" && IsSpace(s[|s| - 1]) then TrimRight(s[..|s| - 1]) else s
  }

  function Lower(s: string): (r: string)
    ensures |r| == |s|
    ensures forall i | 0 <= i < |s| :: r[i] == LowerChar(s[i])
  {
    seq(|s|, i requires 0 <= i < |s| => LowerChar(s[i]))
  }

  function Normalize(email: string): string {
    Lower(TrimRight(TrimLeft(email)))
  }

  /** The address without the blanks around it. */
  ghost predicate HasCore(email: string, left: string, core: string, right: string) {
    && email == left + core + right && (forall c | c in left + right :: IsSpace(c))
    && (core != "" ==> !IsSpace(core[0]) && !IsSpace(core[|core| - 1]))
  }

  /** Normalisation keeps the core between surrounding blanks, lower-cased. */
  lemma NormalizeForgets(email: string, left: string, core: string, right: string)
    requires HasCore(email, left, core, right)
    ensures Normalize(email) == Lower(core) == Normalize(Lower(core))
  {
    if core == "" {
      assert left + core + right == left + right;
      AllBlank(left + right);
    } else {
      TrimLeftBlank(left, core + right);
      assert left + core + right == left + (core + right);
      TrimRightBlank(core, right);
      assert forall i | 0 <= i < |core| :: IsSpace(Lower(core)[i]) == IsSpace(core[i]);
      assert Lower(Lower(core)) == Lower(core);
    }
  }

  // ---- What two addresses share when normalisation takes them for one ----

  /** One character, or one ASCII letter in its two cases. */
  predicate SameLetter(c: char, d: char) {
    || c == d
    || ('A' <= c <= 'Z' && 'a' <= d <= 'z' && c as int - 'A' as int == d as int - 'a' as int)
    || ('a' <= c <= 'z' && 'A' <= d <= 'Z' && c as int - 'a' as int == d as int - 'A' as int)
  }

  predicate SameText(x: string, y: string) {
    |x| == |y| && forall i | 0 <= i < |x| :: SameLetter(x[i], y[i])
  }

  /** The same address but for blanks around it and the case of its letters. */
  ghost predicate SameAddress(a: string, b: string) {
    exists l1, c1, r1, l2, c2, r2 :: HasCore(a, l1, c1, r1) && HasCore(b, l2, c2, r2) && SameText(c1, c2)
  }

  /** Lower-casing forgets the case of a letter and nothing else. */
  lemma LowerCharForgets(c: char, d: char)
    ensures LowerChar(c) == LowerChar(d) <==> SameLetter(c, d)
  {
  }

  lemma LowerForgets(x: string, y: string)
    ensures Lower(x) == Lower(y) <==> SameText(x, y)
  {
    if Lower(x) == Lower(y) {
      forall i | 0 <= i < |x| ensures SameLetter(x[i], y[i]) {
        assert Lower(x)[i] == Lower(y)[i];
        LowerCharForgets(x[i], y[i]);
      }
    }
    if SameText(x, y) {
      forall i | 0 <= i < |x| ensures Lower(x)[i] == Lower(y)[i] {
        LowerCharForgets(x[i], y[i]);
      }
    }
  }

  /** So two addresses are taken for one exactly when blanks around them and letter case are all that differs. */
  lemma SameAddressIff(a: string, b: string)
    ensures Normalize(a) == Normalize(b) <==> SameAddress(a, b)
  {
    if SameAddress(a, b) {
      var l1, c1, r1, l2, c2, r2 :| HasCore(a, l1, c1, r1) && HasCore(b, l2, c2, r2) && SameText(c1, c2);
      NormalizeForgets(a, l1, c1, r1);
      NormalizeForgets(b, l2, c2, r2);
      LowerForgets(c1, c2);
    }
    if Normalize(a) == Normalize(b) {
      var l1, c1, r1 := EveryAddressHasACore(a);
      var l2, c2, r2 := EveryAddressHasACore(b);
      NormalizeForgets(a, l1, c1, r1);
      NormalizeForgets(b, l2, c2, r2);
      LowerForgets(c1, c2);
    }
  }

  lemma AllBlank(s: string)
    requires forall c | c in s :: IsSpace(c)
    ensures TrimLeft(s) == ""
  {
    if s == "" {
    } else {
      AllBlank(s[1..]);
    }
  }

  /** And every address has that form. */
  lemma {:induction false} EveryAddressHasACore(email: string) returns (left: string, core: string, right: string)
    ensures HasCore(email, left, core, right)
    decreases email
  {
    if email == "" {
      left, core, right := "", "", "";
    } else if IsSpace(email[0]) {
      left, core, right := EveryAddressHasACore(email[1..]);
      assert email == [email[0]] + email[1..];
      left := [email[0]] + left;
    } else if IsSpace(email[|email| - 1]) {
      var shorter := email[..|email| - 1];
      left, core, right := EveryAddressHasACore(shorter);
      assert email == shorter + [email[|email| - 1]];
      right := right + [email[|email| - 1]];
    } else {
      left, core, right := "", email, "";
    }
  }

  lemma TrimLeftBlank(left: string, rest: string)
    requires forall c | c in left :: IsSpace(c)
    requires rest != "" && !IsSpace(rest[0])
    ensures TrimLeft(left + rest) == rest
  {
    if left == "" {
      assert left + rest == rest;
    } else {
      assert (left + rest)[1..] == left[1..] + rest;
      TrimLeftBlank(left[1..], rest);
    }
  }

  lemma TrimRightBlank(core: string, right: string)
    requires forall c | c in right :: IsSpace(c)
    requires core != "" && !IsSpace(core[|core| - 1])
    ensures TrimRight(core + right) == core
  {
    if right == "" {
      assert core + right == core;
    } else {
      var shorter := right[..|right| - 1];
      assert (core + right)[..|core + right| - 1] == core + shorter;
      assert (core + right)[|core + right| - 1] == right[|right| - 1];
      assert right[|right| - 1] in right;
      TrimRightBlank(core, shorter);
    }
  }

  function NormalizeAll(to: seq<string>): (r: seq<string>)
    ensures |r| == |to|
    ensures forall i | 0 <= i < |to| :: r[i] == Normalize(to[i])
  {
    seq(|to|, i requires 0 <= i < |to| => Normalize(to[i]))
  }

  // ---- Array.prototype.sort: ascending by code unit ----

  predicate StringLe(a: string, b: string) {
    if a == "" then true
    else if b == "" then false
    else if a[0] != b[0] then a[0] < b[0]
    else StringLe(a[1..], b[1..])
  }

  lemma {:induction false} StringLeTotal(a: string, b: string)
    ensures StringLe(a, b) || StringLe(b, a)
    ensures StringLe(a, b) && StringLe(b, a) ==> a == b
  {
    if a == "" || b == "" || a[0] != b[0] {
    } else {
      StringLeTotal(a[1..], b[1..]);
      assert a == [a[0]] + a[1..] && b == [b[0]] + b[1..];
    }
  }

  lemma {:induction false} StringLeTransitive(a: string, b: string, c: string)
    requires StringLe(a, b) && StringLe(b, c)
    ensures StringLe(a, c)
  {
    if a == "" || !(b != "" && c != "" && a[0] == b[0] == c[0]) {
    } else {
      StringLeTransitive(a[1..], b[1..], c[1..]);
    }
  }

  predicate Sorted(xs: seq<string>) {
    forall i, j | 0 <= i < j < |xs| :: StringLe(xs[i], xs[j])
  }

  function Insert(x: string, xs: seq<string>): (r: seq<string>)
    ensures multiset(r) == multiset(xs) + multiset{x}
  {
    if xs == [] then [x]
    else if StringLe(x, xs[0]) then [x] + xs
    else
      assert xs == [xs[0]] + xs[1..];
      [xs[0]] + Insert(x, xs[1..])
  }

  function Sort(xs: seq<string>): (r: seq<string>)
    ensures multiset(r) == multiset(xs)
  {
    if xs == [] then []
    else
      assert xs == [xs[0]] + xs[1..];
      Insert(xs[0], Sort(xs[1..]))
  }

  lemma {:induction false} InsertSorted(x: string, xs: seq<string>)
    requires Sorted(xs)
    ensures Sorted(Insert(x, xs))
  {
    if xs == [] {
    } else if StringLe(x, xs[0]) {
      forall j | 0 <= j < |xs| ensures StringLe(x, xs[j]) {
        if j > 0 { StringLeTransitive(x, xs[0], xs[j]); }
      }
    } else {
      StringLeTotal(x, xs[0]);
      InsertSorted(x, xs[1..]);
      var tail := Insert(x, xs[1..]);
      forall j | 0 <= j < |tail| ensures StringLe(xs[0], tail[j]) {
        assert tail[j] in multiset(tail);
        assert tail[j] == x || tail[j] in xs[1..];
      }
    }
  }

  lemma {:induction false} SortSorts(xs: seq<string>)
    ensures Sorted(Sort(xs))
  {
    if xs == [] {
    } else {
      SortSorts(xs[1..]);
      InsertSorted(xs[0], Sort(xs[1..]));
    }
  }

  lemma LeastFirst(a: seq<string>, b: seq<string>)
    requires Sorted(a) && a != [] && b != [] && multiset(a) == multiset(b)
    ensures StringLe(a[0], b[0])
  {
    assert b[0] in multiset(a);
    var i :| 0 <= i < |a| && a[i] == b[0];
    StringLeTotal(a[0], a[0]);
  }

  lemma TailOf(a: seq<string>)
    requires a != []
    ensures a == [a[0]] + a[1..] && multiset(a[1..]) == multiset(a) - multiset{a[0]}
  {
    assert a == [a[0]] + a[1..];
  }

  lemma {:induction false} SortedPermutationUnique(a: seq<string>, b: seq<string>)
    requires Sorted(a) && Sorted(b) && multiset(a) == multiset(b)
    ensures a == b
  {
    assert |multiset(a)| == |a| && |multiset(b)| == |b|;
    if a == [] {
    } else {
      LeastFirst(a, b);
      LeastFirst(b, a);
      StringLeTotal(a[0], b[0]);
      TailOf(a);
      TailOf(b);
      SortedPermutationUnique(a[1..], b[1..]);
    }
  }

  // ---- join(",") and its inverse ----

  function Join(xs: seq<string>): string {
    if xs == [] then ""
    else if |xs| == 1 then xs[0]
    else xs[0] + "," + Join(xs[1..])
  }

  function Split(s: string): (r: seq<string>)
    ensures r != []
  {
    if s == "" then [""]
    else if s[0] == ',' then [""] + Split(s[1..])
    else
      var rest := Split(s[1..]);
      [[s[0]] + rest[0]] + rest[1..]
  }

  predicate CommaFree(xs: seq<string>) {
    forall i | 0 <= i < |xs| :: ',' !in xs[i]
  }

  lemma {:induction false} SplitPlain(x: string)
    requires ',' !in x
    ensures Split(x) == [x]
  {
    if x == "" {
    } else {
      SplitPlain(x[1..]);
      assert [x[0]] + x[1..] == x;
    }
  }

  lemma {:induction false} SplitHead(x: string, rest: string)
    requires ',' !in x
    ensures Split(x + "," + rest) == [x] + Split(rest)
  {
    var s := x + "," + rest;
    if x == "" {
      assert s[1..] == rest;
    } else {
      assert s[1..] == x[1..] + "," + rest;
      SplitHead(x[1..], rest);
      assert [x[0]] + x[1..] == x;
    }
  }

  lemma {:induction false} SplitJoin(xs: seq<string>)
    requires xs != [] && CommaFree(xs)
    ensures Split(Join(xs)) == xs
  {
    if |xs| == 1 {
      SplitPlain(xs[0]);
      assert xs == [xs[0]];
    } else {
      SplitJoin(xs[1..]);
      SplitHead(xs[0], Join(xs[1..]));
    }
  }

  lemma JoinInjective(a: seq<string>, b: seq<string>)
    requires CommaFree(a) && CommaFree(b) && Join(a) == Join(b)
    ensures a == b || (a == [] && b == [""]) || (a == [""] && b == [])
  {
    if a != [] { SplitJoin(a); }
    if b != [] { SplitJoin(b); }
    SplitPlain("");
  }

  // ---- The same recipients ----

  /** A way to assign to every position a position of its own. */
  predicate Pairing(p: seq<nat>) {
    (forall i | 0 <= i < |p| :: p[i] < |p|) && forall i, j | 0 <= i < j < |p| :: p[i] != p[j]
  }

  ghost predicate PairedBy(a: seq<string>, b: seq<string>, p: seq<nat>) {
    |a| == |b| == |p| && Pairing(p) && forall i | 0 <= i < |a| :: SameAddress(a[i], b[p[i]])
  }

  /** The recipients of the two lists pair off, each with the same address as its partner. */
  ghost predicate SameRecipients(a: seq<string>, b: seq<string>) {
    exists p :: PairedBy(a, b, p)
  }

  function Without(xs: seq<string>, j: nat): seq<string>
    requires j < |xs|
  {
    xs[..j] + xs[j + 1..]
  }

  lemma WithoutOne(xs: seq<string>, j: nat)
    requires j < |xs|
    ensures multiset(xs) == multiset(Without(xs, j)) + multiset{xs[j]}
  {
    assert xs == xs[..j] + [xs[j]] + xs[j + 1..];
  }

  lemma WithoutLast(xs: seq<string>)
    requires xs != []
    ensures multiset(xs) == multiset(xs[..|xs| - 1]) + multiset{xs[|xs| - 1]}
  {
    assert xs == xs[..|xs| - 1] + [xs[|xs| - 1]];
  }

  lemma StillSame(xs: seq<string>, ys: seq<string>, j: nat)
    requires xs != [] && multiset(xs) == multiset(ys) && j < |ys| && ys[j] == xs[|xs| - 1]
    ensures multiset(xs[..|xs| - 1]) == multiset(Without(ys, j))
  {
    WithoutLast(xs);
    WithoutOne(ys, j);
    assert multiset(xs[..|xs| - 1]) == multiset(xs) - multiset{ys[j]} == multiset(Without(ys, j));
  }

  predicate Matched(xs: seq<string>, ys: seq<string>, p: seq<nat>) {
    |xs| == |ys| == |p| && Pairing(p) && forall i | 0 <= i < |xs| :: xs[i] == ys[p[i]]
  }

  /** A position after one position before it has been opened up. */
  function Shifted(k: nat, j: nat): nat { if k < j then k else k + 1 }

  lemma {:induction false} MatchUp(xs: seq<string>, ys: seq<string>) returns (p: seq<nat>)
    requires multiset(xs) == multiset(ys)
    ensures Matched(xs, ys, p)
    decreases |xs|
  {
    assert |xs| == |multiset(xs)| == |multiset(ys)| == |ys|;
    if xs == [] {
      p := [];
    } else {
      var n := |xs| - 1;
      assert xs[n] in multiset(ys);
      var j: nat :| j < |ys| && ys[j] == xs[n];
      StillSame(xs, ys, j);
      var q := MatchUp(xs[..n], Without(ys, j));
      p := seq(n, i requires 0 <= i < n => Shifted(q[i], j)) + [j];
      MatchedByOneMore(xs, ys, j, q, p);
    }
  }

  lemma MatchedByOneMore(xs: seq<string>, ys: seq<string>, j: nat, q: seq<nat>, p: seq<nat>)
    requires xs != [] && |p| == |q| + 1 == |xs| == |ys| && j < |ys| && ys[j] == xs[|xs| - 1]
    requires Matched(xs[..|xs| - 1], Without(ys, j), q)
    requires (forall i | 0 <= i < |q| :: p[i] == Shifted(q[i], j)) && p[|q|] == j
    ensures Matched(xs, ys, p)
  {
    forall i | 0 <= i < |xs| ensures p[i] < |p| && xs[i] == ys[p[i]] {
      if i < |q| {
        assert xs[..|xs| - 1][i] == Without(ys, j)[q[i]];
      }
    }
  }

  /** A position with one position before it closed. */
  function Closed(k: nat, j: nat): nat { if k < j then k else if k == 0 then 0 else k - 1 }

  lemma {:induction false} MatchedHaveSame(xs: seq<string>, ys: seq<string>, p: seq<nat>)
    requires Matched(xs, ys, p)
    ensures multiset(xs) == multiset(ys)
    decreases |xs|
  {
    if xs == [] {
    } else {
      var n, j := |xs| - 1, p[|xs| - 1];
      var q := seq(n, i requires 0 <= i < n => Closed(p[i], j));
      MatchedByOneLess(xs, ys, p, q);
      MatchedHaveSame(xs[..n], Without(ys, j), q);
      WithoutLast(xs);
      WithoutOne(ys, j);
    }
  }

  lemma MatchedByOneLess(xs: seq<string>, ys: seq<string>, p: seq<nat>, q: seq<nat>)
    requires xs != [] && Matched(xs, ys, p) && |q| == |xs| - 1
    requires forall i | 0 <= i < |q| :: q[i] == Closed(p[i], p[|xs| - 1])
    ensures Matched(xs[..|xs| - 1], Without(ys, p[|xs| - 1]), q)
  {
    var n, j := |xs| - 1, p[|xs| - 1];
    forall i | 0 <= i < n ensures q[i] < n && xs[i] == Without(ys, j)[q[i]] {
      assert p[i] != p[n];
    }
    forall i, k | 0 <= i < k < n ensures q[i] != q[k] {
      assert p[i] != p[k] && p[i] != p[n] && p[k] != p[n];
    }
  }

  lemma SameRecipientsIff(a: seq<string>, b: seq<string>)
    ensures multiset(NormalizeAll(a)) == multiset(NormalizeAll(b)) <==> SameRecipients(a, b)
  {
    var na, nb := NormalizeAll(a), NormalizeAll(b);
    if multiset(na) == multiset(nb) {
      var p := MatchUp(na, nb);
      forall i | 0 <= i < |a| ensures SameAddress(a[i], b[p[i]]) {
        assert na[i] == nb[p[i]];
        SameAddressIff(a[i], b[p[i]]);
      }
      assert PairedBy(a, b, p);
    }
    if SameRecipients(a, b) {
      var p :| PairedBy(a, b, p);
      forall i | 0 <= i < |a| ensures na[i] == nb[p[i]] {
        SameAddressIff(a[i], b[p[i]]);
      }
      MatchedHaveSame(na, nb, p);
    }
  }

  // ---- The two hashes ----

  function RecipientHash(to: seq<string>): Digest {
    Sha256(Join(Sort(NormalizeAll(to))))
  }

  function BodyText(subject: string, body: string): string {
    subject + "\n\n" + body
  }

  function BodyHash(subject: string, body: string): Digest {
    Sha256(BodyText(subject, body))
  }

  /** The recipient hash identifies the multiset of normalised addresses and forgets their order.
      For comma-free addresses the one collision is the empty list with a single blank address. */
  lemma RecipientHashBinds(a: seq<string>, b: seq<string>)
    requires CommaFree(NormalizeAll(a)) && CommaFree(NormalizeAll(b))
    ensures RecipientHash(a) == RecipientHash(b) <==>
            || multiset(NormalizeAll(a)) == multiset(NormalizeAll(b))
            || (a == [] && NormalizeAll(b) == [""])
            || (NormalizeAll(a) == [""] && b == [])
  {
    var na, nb := NormalizeAll(a), NormalizeAll(b);
    var sa, sb := Sort(na), Sort(nb);
    SortKeeps(na);
    SortKeeps(nb);
    if multiset(na) == multiset(nb) {
      SortSorts(na);
      SortSorts(nb);
      SortedPermutationUnique(sa, sb);
    }
    if Join(sa) == Join(sb) {
      JoinInjective(sa, sb);
    }
    assert Sort([""]) == [""];
  }

  lemma SortKeeps(xs: seq<string>)
    ensures |Sort(xs)| == |xs|
    ensures CommaFree(xs) ==> CommaFree(Sort(xs))
    ensures Sort(xs) == [""] ==> xs == [""]
  {
    var r := Sort(xs);
    assert |multiset(r)| == |r| && |multiset(xs)| == |xs|;
    forall i | 0 <= i < |r| ensures r[i] in xs {
      assert r[i] in multiset(xs);
    }
    if r == [""] {
      assert xs[0] in multiset(r);
    }
  }

  /** Lower-case, without blanks at its ends: what normalisation leaves alone. */
  predicate Tidy(s: string) {
    (forall i | 0 <= i < |s| :: LowerChar(s[i]) == s[i]) && (s != "" ==> !IsSpace(s[0]) && !IsSpace(s[|s| - 1]))
  }

  /** An address with something in it keeps something, and gets no comma it did not have. */
  lemma NormalizedKeeps(email: string)
    ensures ',' !in email ==> ',' !in Normalize(email)
    ensures (exists c :: c in email && !IsSpace(c)) ==> Normalize(email) != ""
  {
    var left, core, right := EveryAddressHasACore(email);
    NormalizeForgets(email, left, core, right);
    forall i | 0 <= i < |core| && Lower(core)[i] == ',' ensures ',' in email {
      assert core[i] in email;
    }
    forall c | c in email && !IsSpace(c) ensures core != "" {
      assert c in left + core + right;
    }
  }

  lemma NormalizedIsTidy(email: string)
    ensures Tidy(Normalize(email))
  {
    var left, core, right := EveryAddressHasACore(email);
    NormalizeForgets(email, left, core, right);
  }

  lemma {:induction false} JoinIsTidy(xs: seq<string>)
    requires forall i | 0 <= i < |xs| :: Tidy(xs[i])
    ensures Tidy(Join(xs)) && (|xs| >= 2 ==> Join(xs) != "")
  {
    if |xs| < 2 {
    } else {
      JoinIsTidy(xs[1..]);
      CommaKeepsTidy(xs[0], Join(xs[1..]));
    }
  }

  lemma CommaKeepsTidy(x: string, rest: string)
    requires Tidy(x) && Tidy(rest)
    ensures Tidy(x + "," + rest)
  {
    var joined := x + "," + rest;
    forall i | 0 <= i < |joined| ensures LowerChar(joined[i]) == joined[i] {
      if i < |x| { assert joined[i] == x[i]; } else if i > |x| { assert joined[i] == rest[i - |x| - 1]; }
    }
    if x == "" { assert joined[0] == ','; } else { assert joined[0] == x[0]; }
    if rest == "" { assert joined[|joined| - 1] == ','; } else { assert joined[|joined| - 1] == rest[|rest| - 1]; }
  }

  /** The comma condition is needed, for every list: two or more recipients hash like the one address that
      is their joined text. */
  lemma CommaBreaksRecipientBinding(to: seq<string>)
    requires |to| >= 2
    ensures var joined := Join(Sort(NormalizeAll(to)));
      && RecipientHash([joined]) == RecipientHash(to)
      && multiset(NormalizeAll([joined])) != multiset(NormalizeAll(to))
  {
    var normalized := NormalizeAll(to);
    var sorted := Sort(normalized);
    var joined := Join(sorted);
    SortKeeps(normalized);
    forall i | 0 <= i < |sorted| ensures Tidy(sorted[i]) {
      assert sorted[i] in multiset(normalized);
      var j :| 0 <= j < |normalized| && normalized[j] == sorted[i];
      NormalizedIsTidy(to[j]);
    }
    JoinIsTidy(sorted);
    Settled(joined);
    assert NormalizeAll([joined]) == [joined];
    assert Sort([joined]) == [joined];
    assert |multiset([joined])| == 1 && |multiset(normalized)| == |to|;
  }

  lemma Unpadded(s: string, none: string)
    requires none == []
    ensures none + s + none == s
  {
  }

  lemma LowerFixed(s: string)
    requires forall i | 0 <= i < |s| :: LowerChar(s[i]) == s[i]
    ensures Lower(s) == s
  {
  }

  lemma Settled(s: string)
    requires s != "" && !IsSpace(s[0]) && !IsSpace(s[|s| - 1])
    requires forall i | 0 <= i < |s| :: LowerChar(s[i]) == s[i]
    ensures Normalize(s) == s
  {
    var none: string := [];
    Unpadded(s, none);
    NormalizeForgets(s, none, s, none);
    LowerFixed(s);
  }

  /** With single-line subjects, as section 2.2 of RFC 5322 demands, the body hash identifies
      subject and body. */
  lemma BodyHashBinds(s1: string, b1: string, s2: string, b2: string)
    requires '\n' !in s1 && '\n' !in s2
    ensures BodyHash(s1, b1) == BodyHash(s2, b2) <==> s1 == s2 && b1 == b2
  {
    var t1, t2 := BodyText(s1, b1), BodyText(s2, b2);
    if t1 == t2 {
      FirstNewline(s1, b1);
      FirstNewline(s2, b2);
      assert t1[..|s1|] == s1 && t2[..|s2|] == s2;
      assert t1[|s1| + 2..] == b1 && t2[|s2| + 2..] == b2;
    }
  }

  lemma FirstNewline(subject: string, body: string)
    requires '\n' !in subject
    ensures BodyText(subject, body)[|subject|] == '\n'
    ensures forall i | 0 <= i < |subject| :: BodyText(subject, body)[i] != '\n'
  {
    assert forall i | 0 <= i < |subject| :: BodyText(subject, body)[i] == subject[i];
  }

  predicate SeparatorAt(text: string, i: int) {
    0 <= i && i + 2 <= |text| && text[i] == '\n' && text[i + 1] == '\n'
  }

  /** For arbitrary subjects: the pair is the only one with its hash exactly when the hashed text
      holds a single separator. */
  lemma BodyHashUniqueIff(subject: string, body: string)
    ensures (forall s, b :: BodyHash(s, b) == BodyHash(subject, body) ==> s == subject && b == body)
       <==> (forall i :: SeparatorAt(BodyText(subject, body), i) ==> i == |subject|)
  {
    var text := BodyText(subject, body);
    if i :| SeparatorAt(text, i) && i != |subject| {
      assert text == BodyText(text[..i], text[i + 2..]);
      assert BodyHash(text[..i], text[i + 2..]) == BodyHash(subject, body);
      assert |text[..i]| == i;
    }
    forall s, b | BodyHash(s, b) == BodyHash(subject, body) &&
        (forall i :: SeparatorAt(text, i) ==> i == |subject|)
      ensures s == subject && b == body
    {
      assert SeparatorAt(BodyText(s, b), |s|);
      assert text[..|s|] == s && text[..|subject|] == subject;
      assert text[|s| + 2..] == b && text[|subject| + 2..] == body;
    }
  }
}
