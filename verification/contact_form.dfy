/**
 * The contact form's submit handler (js/main.js): a double-submit latch, a
 * fixed-window rate limiter, per-field validation of the required fields,
 * and a honeypot field. The clock (Date.now()) is the parameter `now`; the
 * form's required fields are records in document order.
 */
module ContactForm {
  import opened Wrappers
  import opened Text

  const RATE_LIMIT_INTERVAL: int := 60000
  const MAX_SUBMITS_PER_INTERVAL: int := 3
  const CONSENT_MESSAGE: string := "プライバシーポリシーへの同意が必要です"

  /** A required form control: its `type` attribute, its value, and (for a
      checkbox) whether it is checked. */
  datatype Field = Field(kind: string, value: string, checked: bool)

  // ---------------------------------------------------------------------
  // The three regular expressions
  // ---------------------------------------------------------------------

  /** Every character belongs to [^\s@]. */
  predicate NoSpaceOrAt(p: string) {
    forall k :: 0 <= k < |p| ==> !IsJsSpace(p[k]) && p[k] != '@'
  }

  /** s = s[..i] + "@" + s[i+1..j] + "." + s[j+1..], three non-empty runs of [^\s@]. */
  predicate EmailSplit(s: string, i: nat, j: nat) {
    && i < j < |s|
    && s[i] == '@' && s[j] == '.'
    && 0 < i && i + 1 < j && j + 1 < |s|
    && NoSpaceOrAt(s[..i]) && NoSpaceOrAt(s[i + 1..j]) && NoSpaceOrAt(s[j + 1..])
  }

  /** /^[^\s@]+@[^\s@]+\.[^\s@]+$/ */
  predicate EmailPattern(s: string) {
    exists i: nat, j: nat | i < j < |s| :: EmailSplit(s, i, j)
  }

  /** [\d\-\+\(\)\s] */
  predicate IsTelChar(c: char) {
    IsDigit(c) || c == '-' || c == '+' || c == '(' || c == ')' || IsJsSpace(c)
  }

  /** /^[\d\-\+\(\)\s]{10,15}$/ */
  predicate TelPattern(s: string) {
    10 <= |s| <= 15 && forall k :: 0 <= k < |s| ==> IsTelChar(s[k])
  }

  /** The lower-case literal `lit` occurs at index p, letters compared without case. */
  predicate MatchesIgnoreCase(s: string, p: nat, lit: string) {
    p + |lit| <= |s| && forall k :: 0 <= k < |lit| ==> AsciiLower(s[p + k]) == lit[k]
  }

  /** After "on" at index p: \w+ over s[p+2..q], then \s* over s[q..r], then '=' at r. */
  predicate HandlerTail(s: string, p: nat, q: nat, r: nat) {
    && p + 2 < q <= r < |s|
    && (forall k :: p + 2 <= k < q ==> IsWordChar(s[k]))
    && (forall k :: q <= k < r ==> IsJsSpace(s[k]))
    && s[r] == '='
  }

  /** on\w+\s*= at index p (case-insensitive). */
  predicate HandlerAttributeAt(s: string, p: nat) {
    MatchesIgnoreCase(s, p, "on") &&
    exists q: nat, r: nat | q <= r < |s| :: HandlerTail(s, p, q, r)
  }

  /** /<script|javascript:|on\w+\s*=/i, searched anywhere in s. */
  predicate DangerousPattern(s: string) {
    exists p: nat | p <= |s| ::
      || MatchesIgnoreCase(s, p, "<script")
      || MatchesIgnoreCase(s, p, "javascript:")
      || HandlerAttributeAt(s, p)
  }

  /** A matching address has no white space and exactly one '@', which is
      neither its first nor its last character. */
  lemma EmailShape(s: string)
    requires EmailPattern(s)
    ensures forall k :: 0 <= k < |s| ==> !IsJsSpace(s[k])
    ensures exists i :: 0 < i < |s| - 1 && s[i] == '@' && forall k :: 0 <= k < |s| && s[k] == '@' ==> k == i
  {
    var i: nat, j: nat :| i < j < |s| && EmailSplit(s, i, j);
    forall k | 0 <= k < |s| ensures !IsJsSpace(s[k]) && (s[k] == '@' ==> k == i) {
      if k < i {
        assert s[..i][k] == s[k];
      } else if i < k < j {
        assert s[i + 1..j][k - i - 1] == s[k];
      } else if j < k {
        assert s[j + 1..][k - j - 1] == s[k];
      }
    }
  }

  /** Text without '<', ':' or '=' can never trip the script pattern. */
  lemma SafeWithoutMarkers(s: string)
    requires forall k :: 0 <= k < |s| ==> s[k] != '<' && s[k] != ':' && s[k] != '='
    ensures !DangerousPattern(s)
  {
    forall p: nat | p <= |s|
      ensures !MatchesIgnoreCase(s, p, "<script") && !MatchesIgnoreCase(s, p, "javascript:")
    {
      if p < |s| {
        assert AsciiLower(s[p + 0]) != "<script"[0];
      }
      if p + 10 < |s| {
        assert AsciiLower(s[p + 10]) != "javascript:"[10];
      }
    }
  }

  /** An address of the usual shape matches the e-mail pattern. */
  lemma EmailExample()
    ensures EmailPattern("info@kokoro.jp")
  {
    assert EmailSplit("info@kokoro.jp", 4, 11);
  }

  /** A hyphenated ten-digit number matches the telephone pattern; a short one does not. */
  lemma TelExamples()
    ensures TelPattern("03-1234-5678")
    ensures !TelPattern("03-1234")
  {
  }

  /** The script pattern ignores case, and white space may precede the '='. */
  lemma DangerousExamples()
    ensures DangerousPattern("<SCRIPT>")
    ensures DangerousPattern("x onClick = y")
  {
    var shout := "<SCRIPT>";
    assert MatchesIgnoreCase(shout, 0, "<script");
    var handler := "x onClick = y";
    assert MatchesIgnoreCase(handler, 2, "on");
    assert HandlerTail(handler, 2, 9, 10);
    assert HandlerAttributeAt(handler, 2);
  }

  // ---------------------------------------------------------------------
  // Field validation
  // ---------------------------------------------------------------------

  /** A required field passes every check the handler runs on it. */
  predicate FieldValid(f: Field) {
    if f.kind == "checkbox" then f.checked
    else
      var v := Trim(f.value);
      && v != []
      && (f.kind == "email" ==> EmailPattern(v))
      && (f.kind == "tel" ==> TelPattern(v))
      && !DangerousPattern(v)
  }

  /** A required text field holding only white space fails, since trim() empties it. */
  lemma BlankFieldFails(f: Field)
    requires f.kind != "checkbox"
    requires forall k :: 0 <= k < |f.value| ==> IsJsSpace(f.value[k])
    ensures !FieldValid(f)
  {
  }

  predicate IsUncheckedBox(f: Field) {
    f.kind == "checkbox" && !f.checked
  }

  /** The first failing required field at or after index `from`, in document order. */
  function FirstInvalid(fields: seq<Field>, from: nat): (r: Option<nat>)
    requires from <= |fields|
    ensures r.None? <==> forall i :: from <= i < |fields| ==> FieldValid(fields[i])
    ensures r.Some? ==>
      && from <= r.value < |fields|
      && !FieldValid(fields[r.value])
      && forall j :: from <= j < r.value ==> FieldValid(fields[j])
    decreases |fields| - from
  {
    if from == |fields| then None
    else if !FieldValid(fields[from]) then Some(from)
    else FirstInvalid(fields, from + 1)
  }

  /** A failing field with only passing fields before it is the first invalid one. */
  lemma FirstInvalidIsFirst(fields: seq<Field>, k: nat)
    requires k < |fields| && !FieldValid(fields[k])
    requires forall j :: 0 <= j < k ==> FieldValid(fields[j])
    ensures FirstInvalid(fields, 0) == Some(k)
  {
  }

  /** The messages pushed for the unchecked consent checkboxes, in order. */
  function ConsentErrors(fields: seq<Field>): (msgs: seq<string>)
    ensures forall m :: m in msgs ==> m == CONSENT_MESSAGE
    decreases |fields|
  {
    if fields == [] then []
    else
      var last := fields[|fields| - 1];
      ConsentErrors(fields[..|fields| - 1]) + (if IsUncheckedBox(last) then [CONSENT_MESSAGE] else [])
  }

  lemma ConsentErrorsCount(fields: seq<Field>)
    ensures |ConsentErrors(fields)| == |set i | 0 <= i < |fields| && IsUncheckedBox(fields[i])|
    decreases |fields|
  {
    if fields != [] {
      var n := |fields| - 1;
      var init := fields[..n];
      ConsentErrorsCount(init);
      var before := set i | 0 <= i < n && IsUncheckedBox(init[i]);
      var after := set i | 0 <= i < |fields| && IsUncheckedBox(fields[i]);
      if IsUncheckedBox(fields[n]) {
        assert after == before + {n};
      } else {
        assert after == before;
      }
    }
  }

  /** The checks the forEach callback runs on one field, in the handler's
      order: a checkbox is only tested for being checked; an empty trimmed
      value ends that field's checks; otherwise the email, tel and script
      checks all run. Each failing check clears isValid and records the field
      if none is recorded yet, so the field fails when any check does. */
  method CheckField(field: Field) returns (fails: bool)
    ensures fails <==> !FieldValid(field)
  {
    fails := false;
    if field.kind == "checkbox" {
      if !field.checked {
        fails := true;
      }
      return;
    }
    var value := Trim(field.value);
    if value == [] {
      fails := true;
      return;
    }
    if field.kind == "email" && !EmailPattern(value) {
      fails := true;
    }
    if field.kind == "tel" && !TelPattern(value) {
      fails := true;
    }
    if DangerousPattern(value) {
      fails := true;
    }
  }

  /** The forEach over the required fields in document order: isValid is
      cleared by any failing field, firstErrorField keeps the first one, and
      an unchecked consent checkbox also pushes its message. */
  method ValidateRequired(fields: seq<Field>)
    returns (isValid: bool, firstErrorField: Option<nat>, errorMessages: seq<string>)
    ensures isValid <==> forall i :: 0 <= i < |fields| ==> FieldValid(fields[i])
    ensures firstErrorField == FirstInvalid(fields, 0)
    ensures errorMessages == ConsentErrors(fields)
  {
    isValid := true;
    firstErrorField := None;
    errorMessages := [];
    for i := 0 to |fields|
      invariant isValid <==> forall j :: 0 <= j < i ==> FieldValid(fields[j])
      invariant firstErrorField.None? <==> isValid
      invariant firstErrorField.Some? ==> firstErrorField == FirstInvalid(fields, 0)
      invariant errorMessages == ConsentErrors(fields[..i])
    {
      var field := fields[i];
      assert fields[..i + 1][..i] == fields[..i];
      var fails := CheckField(field);
      ghost var validBefore := isValid;
      assert validBefore && !fails <==> forall j :: 0 <= j < i + 1 ==> FieldValid(fields[j]);
      if fails {
        isValid := false;
        if firstErrorField.None? {
          FirstInvalidIsFirst(fields, i);
          firstErrorField := Some(i);
        }
        if IsUncheckedBox(field) {
          errorMessages := errorMessages + [CONSENT_MESSAGE];
        }
      }
    }
    assert fields[..|fields|] == fields;
  }

  // ---------------------------------------------------------------------
  // The submit guard as a state machine
  // ---------------------------------------------------------------------

  /** The closure state of the handler. */
  datatype GuardState = GuardState(isSubmitting: bool, submitCount: int, lastSubmitTime: int)

  const INITIAL: GuardState := GuardState(false, 0, 0)

  /** How one submit event ends: every outcome but Submitted calls preventDefault. */
  datatype SubmitOutcome =
    | AlreadySubmitting
    | RateLimited
    | HoneypotTripped
    | Invalid(firstErrorField: nat)
    | Submitted

  datatype Step = Step(state: GuardState, outcome: SubmitOutcome)

  /** `honeypot && honeypot.value`: the trap input exists and is non-empty. */
  predicate HoneypotFilled(honeypot: Option<string>) {
    honeypot.Some? && honeypot.value != ""
  }

  /** One submit event, from the state before it to the state after it. */
  function SubmitStep(st: GuardState, now: int, fields: seq<Field>, honeypot: Option<string>): (r: Step)
    // the latch: while a submission is under way nothing is touched
    ensures st.isSubmitting ==> r == Step(st, AlreadySubmitting)
    // the fixed window: inside it the counter grows, outside it restarts at now
    ensures !st.isSubmitting && now - st.lastSubmitTime < RATE_LIMIT_INTERVAL ==>
      r.state.submitCount == st.submitCount + 1 && r.state.lastSubmitTime == st.lastSubmitTime
    ensures !st.isSubmitting && now - st.lastSubmitTime >= RATE_LIMIT_INTERVAL ==>
      r.state.submitCount == 1 && r.state.lastSubmitTime == now
    // the order of the checks: rate limit, then honeypot, then validity
    ensures r.outcome == RateLimited <==> !st.isSubmitting && r.state.submitCount > MAX_SUBMITS_PER_INTERVAL
    ensures r.outcome == HoneypotTripped <==>
      !st.isSubmitting && r.state.submitCount <= MAX_SUBMITS_PER_INTERVAL && HoneypotFilled(honeypot)
    ensures r.outcome.Invalid? <==>
      && !st.isSubmitting && r.state.submitCount <= MAX_SUBMITS_PER_INTERVAL && !HoneypotFilled(honeypot)
      && exists i :: 0 <= i < |fields| && !FieldValid(fields[i])
    ensures r.outcome.Invalid? ==> FirstInvalid(fields, 0) == Some(r.outcome.firstErrorField)
    ensures r.outcome == Submitted <==>
      && !st.isSubmitting && r.state.submitCount <= MAX_SUBMITS_PER_INTERVAL && !HoneypotFilled(honeypot)
      && forall i :: 0 <= i < |fields| ==> FieldValid(fields[i])
    // the latch is set by a submission and by nothing else
    ensures r.state.isSubmitting <==> st.isSubmitting || r.outcome == Submitted
  {
    if st.isSubmitting then Step(st, AlreadySubmitting)
    else
      var windowed :=
        if now - st.lastSubmitTime < RATE_LIMIT_INTERVAL
        then GuardState(false, st.submitCount + 1, st.lastSubmitTime)
        else GuardState(false, 1, now);
      if windowed.submitCount > MAX_SUBMITS_PER_INTERVAL then Step(windowed, RateLimited)
      else if HoneypotFilled(honeypot) then Step(windowed, HoneypotTripped)
      else match FirstInvalid(fields, 0)
        case Some(k) => Step(windowed, Invalid(k))
        case None => Step(windowed.(isSubmitting := true), Submitted)
  }

  /** One submit event of a sequence. */
  datatype Attempt = Attempt(now: int, fields: seq<Field>, honeypot: Option<string>)

  datatype Trace = Trace(final: GuardState, outcomes: seq<SubmitOutcome>)

  /** A sequence of submit events, one after another. */
  function Replay(st: GuardState, attempts: seq<Attempt>): (tr: Trace)
    ensures |tr.outcomes| == |attempts|
    decreases |attempts|
  {
    if attempts == [] then Trace(st, [])
    else
      var a := attempts[0];
      var step := SubmitStep(st, a.now, a.fields, a.honeypot);
      var rest := Replay(step.state, attempts[1..]);
      Trace(rest.final, [step.outcome] + rest.outcomes)
  }

  function CountSubmitted(outcomes: seq<SubmitOutcome>): nat
    decreases |outcomes|
  {
    if outcomes == [] then 0
    else (if outcomes[0] == Submitted then 1 else 0) + CountSubmitted(outcomes[1..])
  }

  /** The outcomes of events that got past the rate limiter. */
  predicate PassedRateLimit(o: SubmitOutcome) {
    o.HoneypotTripped? || o.Invalid? || o.Submitted?
  }

  function CountPassed(outcomes: seq<SubmitOutcome>): nat
    decreases |outcomes|
  {
    if outcomes == [] then 0
    else (if PassedRateLimit(outcomes[0]) then 1 else 0) + CountPassed(outcomes[1..])
  }

  function Max0(x: int): nat {
    if x < 0 then 0 else x
  }

  /** Once isSubmitting is set, every later event is refused before the rate
      counter is touched, and the latch is never cleared. */
  lemma {:induction false} LatchIsPermanent(st: GuardState, attempts: seq<Attempt>)
    requires st.isSubmitting
    ensures Replay(st, attempts).final == st
    ensures forall k :: 0 <= k < |attempts| ==> Replay(st, attempts).outcomes[k] == AlreadySubmitting
    decreases |attempts|
  {
    if attempts != [] {
      LatchIsPermanent(st, attempts[1..]);
    }
  }

  /** The form is submitted at most once, whatever the sequence of events. */
  lemma {:induction false} AtMostOneSubmission(st: GuardState, attempts: seq<Attempt>)
    ensures CountSubmitted(Replay(st, attempts).outcomes) <= if st.isSubmitting then 0 else 1
    decreases |attempts|
  {
    if attempts != [] {
      var a := attempts[0];
      var step := SubmitStep(st, a.now, a.fields, a.honeypot);
      AtMostOneSubmission(step.state, attempts[1..]);
      var tr := Replay(st, attempts);
      assert tr.outcomes[1..] == Replay(step.state, attempts[1..]).outcomes;
    }
  }

  /** Within one rate-limit window at most three events get past the limiter,
      valid or not, counting those already made in the window. */
  lemma {:induction false} WindowAdmitsAtMostThree(st: GuardState, attempts: seq<Attempt>)
    requires forall k :: 0 <= k < |attempts| ==> attempts[k].now - st.lastSubmitTime < RATE_LIMIT_INTERVAL
    ensures CountPassed(Replay(st, attempts).outcomes) <= Max0(MAX_SUBMITS_PER_INTERVAL - st.submitCount)
    decreases |attempts|
  {
    if attempts != [] {
      var a := attempts[0];
      var step := SubmitStep(st, a.now, a.fields, a.honeypot);
      assert step.state.lastSubmitTime == st.lastSubmitTime;
      assert forall k :: 0 <= k < |attempts[1..]| ==> attempts[1..][k] == attempts[k + 1];
      WindowAdmitsAtMostThree(step.state, attempts[1..]);
      var tr := Replay(st, attempts);
      assert tr.outcomes[1..] == Replay(step.state, attempts[1..]).outcomes;
    }
  }

  /** Invalid submissions use up the window too: three invalid attempts in a
      minute leave a fourth, valid one rate-limited. */
  lemma InvalidAttemptsCount(t: int, bad: seq<Field>, good: seq<Field>)
    requires t >= RATE_LIMIT_INTERVAL
    requires exists i :: 0 <= i < |bad| && !FieldValid(bad[i])
    requires forall i :: 0 <= i < |good| ==> FieldValid(good[i])
    ensures Replay(INITIAL, [Attempt(t, bad, None), Attempt(t + 1, bad, None),
                             Attempt(t + 2, bad, None), Attempt(t + 3, good, None)]).outcomes[3]
            == RateLimited
  {
    var a1, a2, a3, a4 := Attempt(t, bad, None), Attempt(t + 1, bad, None),
                          Attempt(t + 2, bad, None), Attempt(t + 3, good, None);
    var s1 := SubmitStep(INITIAL, t, bad, None);
    var s2 := SubmitStep(s1.state, t + 1, bad, None);
    var s3 := SubmitStep(s2.state, t + 2, bad, None);
    assert s3.state == GuardState(false, 3, t);
    var s4 := SubmitStep(s3.state, t + 3, good, None);
    assert s4.outcome == RateLimited;
    var r4 := Replay(s3.state, [a4]);
    assert r4.outcomes[0] == RateLimited;
    var r3 := Replay(s2.state, [a3, a4]);
    assert [a3, a4][1..] == [a4];
    assert r3.outcomes[1] == RateLimited;
    var r2 := Replay(s1.state, [a2, a3, a4]);
    assert [a2, a3, a4][1..] == [a3, a4];
    assert r2.outcomes[2] == RateLimited;
    assert [a1, a2, a3, a4][1..] == [a2, a3, a4];
  }

  /** The guard itself: the handler's closure variables, updated in place. */
  class FormGuard {
    var isSubmitting: bool
    var submitCount: int
    var lastSubmitTime: int

    function State(): GuardState
      reads this
    {
      GuardState(isSubmitting, submitCount, lastSubmitTime)
    }

    constructor ()
      ensures State() == INITIAL
    {
      isSubmitting, submitCount, lastSubmitTime := false, 0, 0;
    }

    /** The submit listener. */
    method Submit(now: int, fields: seq<Field>, honeypot: Option<string>) returns (outcome: SubmitOutcome)
      modifies this
      ensures Step(State(), outcome) == SubmitStep(old(State()), now, fields, honeypot)
    {
      if isSubmitting {
        return AlreadySubmitting;
      }
      if now - lastSubmitTime < RATE_LIMIT_INTERVAL {
        submitCount := submitCount + 1;
      } else {
        submitCount := 1;
        lastSubmitTime := now;
      }
      if submitCount > MAX_SUBMITS_PER_INTERVAL {
        return RateLimited;
      }
      var isValid, firstErrorField, errorMessages := ValidateRequired(fields);
      if HoneypotFilled(honeypot) {
        return HoneypotTripped;
      }
      if !isValid {
        return Invalid(firstErrorField.value);
      }
      isSubmitting := true;
      return Submitted;
    }
  }
}
