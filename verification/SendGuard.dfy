/** Classification of provider send errors, regular expressions included. */
module SendGuard {
  import opened Prelude
  import opened MailRecords

  predicate IsDigit(c: char) { '0' <= c <= '9' }

  predicate IsWord(c: char) {
    IsDigit(c) || 'a' <= c <= 'z' || 'A' <= c <= 'Z' || c == '_'
  }

  predicate WordAt(s: string, i: int) { 0 <= i < |s| && IsWord(s[i]) }

  /** The regular-expression assertion \b between positions i-1 and i. */
  predicate Boundary(s: string, i: int) { WordAt(s, i - 1) != WordAt(s, i) }

  /** \b4\d\d\b matches at i. */
  predicate FourXxAt(s: string, i: int) {
    && 0 <= i && i + 3 <= |s|
    && s[i] == '4' && IsDigit(s[i + 1]) && IsDigit(s[i + 2])
    && Boundary(s, i) && Boundary(s, i + 3)
  }

  /** \(4\d\d\) matches at i. */
  predicate ParenthesisedAt(s: string, i: int) {
    && 0 <= i && i + 5 <= |s|
    && s[i] == '(' && s[i + 1] == '4' && IsDigit(s[i + 2]) && IsDigit(s[i + 3]) && s[i + 4] == ')'
  }

  /** \b429\b matches at i. */
  predicate RateLimitAt(s: string, i: int) {
    && 0 <= i && i + 3 <= |s|
    && s[i..i + 3] == "429"
    && Boundary(s, i) && Boundary(s, i + 3)
  }

  predicate ClientRejection(s: string) {
    exists i | 0 <= i < |s| :: FourXxAt(s, i) || ParenthesisedAt(s, i)
  }

  predicate RateLimited(s: string) {
    exists i | 0 <= i < |s| :: RateLimitAt(s, i)
  }

  /** A four and two more digits at that place, and no letter, digit or underscore on either side. */
  predicate StandsAlone(s: string, i: int) {
    && 0 <= i <= |s| - 3 && s[i] == '4' && '0' <= s[i + 1] <= '9' && '0' <= s[i + 2] <= '9'
    && (i > 0 ==> !InWord(s[i - 1])) && (i + 3 < |s| ==> !InWord(s[i + 3]))
  }

  predicate InWord(c: char) {
    || '0' <= c <= '9' || c == '_' || 'A' <= c <= 'Z' || 'a' <= c <= 'z'
  }

  lemma StandsAloneIff(s: string, i: int)
    ensures FourXxAt(s, i) <==> StandsAlone(s, i)
  {
  }

  lemma RateLimitIsRejection(s: string, i: int)
    requires RateLimitAt(s, i)
    ensures FourXxAt(s, i)
  {
    var part := s[i..i + 3];
    assert part == "429" && |part| == 3;
    assert part[0] == s[i];
    assert part[1] == s[i + 1];
    assert part[2] == s[i + 2];
  }

  /** None leaves the record in `Sending`, to be reconciled. */
  function ClassifySendError(message: string): Option<SendOutcome> {
    if ClientRejection(message) then Some(NotDelivered(false))
    else if RateLimited(message) then Some(NotDelivered(true))
    else None
  }

  /** The rate-limit branch is dead: the client-rejection test catches 429 first. So no error text
      settles an attempt as retryable or delivered; it is terminal or it is left ambiguous, and
      terminal exactly when a free-standing 4xx number occurs in it. */
  lemma NeverRetryable(message: string)
    ensures ClassifySendError(message) == Some(NotDelivered(false)) || ClassifySendError(message) == None
    ensures ClassifySendError(message).Some? <==> exists i :: FourXxAt(message, i)
    ensures ClassifySendError(message).Some? <==> exists i :: StandsAlone(message, i)
  {
    forall i ensures FourXxAt(message, i) <==> StandsAlone(message, i) {
      StandsAloneIff(message, i);
    }
    if RateLimited(message) {
      var i :| 0 <= i < |message| && RateLimitAt(message, i);
      RateLimitIsRejection(message, i);
    }
    if i :| 0 <= i < |message| && ParenthesisedAt(message, i) {
      assert FourXxAt(message, i + 1);
    }
  }

  /** What the adapters raise for an HTTP failure, whatever their provider is called: terminal for a status
      of three digits starting with a four, ambiguous for every other number. */
  lemma HttpFailureVerdict(provider: string, status: string)
    requires forall i | 0 <= i < |provider| :: !IsDigit(provider[i])
    requires status != "" && forall k | 0 <= k < |status| :: IsDigit(status[k])
    ensures ClassifySendError(provider + ": request failed (" + status + ")")
         == if |status| == 3 && status[0] == '4' then Some(NotDelivered(false)) else None
  {
    var front := provider + ": request failed (";
    var text := front + status + ")";
    assert text == provider + ": request failed (" + status + ")";
    NeverRetryable(text);
    DigitsOnlyIn(provider, front);
    NumberBetween(front, status, text);
  }

  /** Any other number reads the same: an error text that ends in three digits starting with a four, set off
      from what precedes, as a port is in "connect ETIMEDOUT 142.250.1.1:443", is taken for a rejection. */
  lemma TrailingNumberReadsAsRejection(front: string, number: string)
    requires front != "" ==> !IsWord(front[|front| - 1])
    requires |number| == 3 && number[0] == '4' && IsDigit(number[1]) && IsDigit(number[2])
    ensures ClassifySendError(front + number) == Some(NotDelivered(false))
  {
    var text, p := front + number, |front|;
    assert forall k | 0 <= k < 3 :: text[p + k] == number[k];
    assert p > 0 ==> text[p - 1] == front[p - 1];
    assert FourXxAt(text, p);
  }

  lemma DigitsOnlyIn(provider: string, front: string)
    requires front == provider + ": request failed (" && forall i | 0 <= i < |provider| :: !IsDigit(provider[i])
    ensures (forall i | 0 <= i < |front| :: !IsDigit(front[i])) && front[|front| - 1] == '('
  {
    var middle := ": request failed (";
    assert forall k | 0 <= k < |middle| :: !IsDigit(middle[k]);
    forall i | 0 <= i < |front| ensures !IsDigit(front[i]) {
      if i >= |provider| { assert front[i] == middle[i - |provider|]; }
    }
    assert front[|front| - 1] == middle[|middle| - 1];
  }

  /** One number in parentheses behind a text without digits: a free-standing 4xx occurs exactly if it is one. */
  lemma NumberBetween(front: string, status: string, text: string)
    requires front != "" && front[|front| - 1] == '(' && forall i | 0 <= i < |front| :: !IsDigit(front[i])
    requires status != "" && text == front + status + ")" && forall k | 0 <= k < |status| :: IsDigit(status[k])
    ensures (exists i :: FourXxAt(text, i)) <==> |status| == 3 && status[0] == '4'
  {
    var p := |front|;
    assert text[p - 1] == '(' && text[p + |status|] == ')';
    assert forall k | 0 <= k < |status| :: text[p + k] == status[k];
    assert forall i | 0 <= i < p :: text[i] == front[i];
    forall i | FourXxAt(text, i) ensures i == p && |status| == 3 {
      assert i >= p;
      assert i + 3 <= p + |status|;
    }
    if |status| == 3 && status[0] == '4' { assert FourXxAt(text, p); }
  }
}
