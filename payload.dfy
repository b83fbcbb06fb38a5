/**
 * The chat request body and its validation: the field constraints of
 * `ChatRequest` (message length 1 to 1000, model name drawn from
 * `[a-zA-Z0-9_:-]`, default model "gemma3n:e4b") and the `validate_message`
 * validator, which rejects blank messages and messages carrying a
 * dangerous marker, and hands on the stripped message.
 */
module Payload {
  import opened Text

  datatype Option<T> = None | Some(value: T)

  const MIN_MESSAGE_LENGTH: nat := 1
  const MAX_MESSAGE_LENGTH: nat := 1000
  const DEFAULT_MODEL: string := "gemma3n:e4b"
  const DANGEROUS_MARKERS: seq<string> := ["<script", "<?php", "javascript:", "data:"]

  /** A request that passed validation. */
  datatype ChatRequest = ChatRequest(message: string, model: string)

  /** Outcome of validating a field or a whole request; both failures are a
      validation error of the request body, told apart by their message. */
  datatype Checked<T> = Ok(value: T) | InvalidInput | SecurityRisk

  /** One character of the model pattern `^[a-zA-Z0-9_:-]+$`. */
  predicate IsModelChar(c: char) {
    ('a' <= c <= 'z') || ('A' <= c <= 'Z') || ('0' <= c <= '9') || c == '_' || c == ':' || c == '-'
  }

  /** The whole model name matches `^[a-zA-Z0-9_:-]+$`. */
  predicate IsModelName(name: string) {
    |name| >= 1 && forall i | 0 <= i < |name| :: IsModelChar(name[i])
  }

  /** Some dangerous marker, lower-cased, occurs in `lowered`. */
  predicate HasMarker(lowered: string) {
    exists k | 0 <= k < |DANGEROUS_MARKERS| :: Contains(lowered, Lower(DANGEROUS_MARKERS[k]))
  }

  /** A marker found in a slice of `s` is found in `s`, once both are lower-cased. */
  lemma MarkerInSlice(s: string, lo: nat, hi: nat)
    requires lo <= hi <= |s|
    requires HasMarker(Lower(s[lo..hi]))
    ensures HasMarker(Lower(s))
  {
    var k :| 0 <= k < |DANGEROUS_MARKERS| && Contains(Lower(s[lo..hi]), Lower(DANGEROUS_MARKERS[k]));
    LowerSlice(s, lo, hi);
    SliceContained(Lower(s), lo, hi);
    ContainsTransitive(Lower(s), Lower(s[lo..hi]), Lower(DANGEROUS_MARKERS[k]));
  }

  /** `validate_message`: a blank message is invalid input, a message holding
      a marker in any letter-casing is a security risk, and otherwise the
      stripped message is accepted, which is non-blank and marker-free. */
  function ValidateMessage(v: string): (r: Checked<string>)
    ensures r.InvalidInput? <==> AllSpace(v)
    ensures r.SecurityRisk? <==> !AllSpace(v) && HasMarker(Lower(v))
    ensures r.Ok? ==> r.value == Strip(v) && r.value != [] && |r.value| <= |v|
    ensures r.Ok? ==> !HasMarker(Lower(r.value))
  {
    var stripped := Strip(v);
    if stripped == [] then InvalidInput
    else if HasMarker(Lower(v)) then SecurityRisk
    else
      StrippedKeepsNoMarker(v);
      Ok(stripped)
  }

  /** Stripping cannot introduce a marker: the stripped message is a slice of
      the raw one. */
  lemma StrippedKeepsNoMarker(v: string)
    requires !HasMarker(Lower(v))
    ensures !HasMarker(Lower(Strip(v)))
  {
    var stripped := Strip(v);
    var k := LeadingSpaces(v);
    if HasMarker(Lower(stripped)) {
      MarkerInSlice(v, k, k + |stripped|);
    }
  }

  /** Building a `ChatRequest` from the raw body: the length constraints on
      the raw message are checked first and `validate_message` runs only if
      they hold; then the model name is checked when one was sent, and an
      absent model takes the default, which is not checked. */
  function ParseChatRequest(message: string, model: Option<string>): (r: Checked<ChatRequest>)
    ensures r.Ok? <==>
      && MIN_MESSAGE_LENGTH <= |message| <= MAX_MESSAGE_LENGTH
      && !AllSpace(message)
      && !HasMarker(Lower(message))
      && (model.Some? ==> IsModelName(model.value))
    ensures r.SecurityRisk? <==>
      MIN_MESSAGE_LENGTH <= |message| <= MAX_MESSAGE_LENGTH && !AllSpace(message) && HasMarker(Lower(message))
    ensures r.Ok? ==>
      && r.value.message == Strip(r.value.message)
      && r.value.message == Strip(message)
      && MIN_MESSAGE_LENGTH <= |r.value.message| <= MAX_MESSAGE_LENGTH
      && !HasMarker(Lower(r.value.message))
      && IsModelName(r.value.model)
      && r.value.model == (if model.Some? then model.value else DEFAULT_MODEL)
  {
    if !(MIN_MESSAGE_LENGTH <= |message| <= MAX_MESSAGE_LENGTH) then InvalidInput
    else
      match ValidateMessage(message)
      case InvalidInput => InvalidInput
      case SecurityRisk => SecurityRisk
      case Ok(text) =>
        match model
        case None =>
          DefaultModelIsWellFormed();
          StripIdempotent(message);
          Ok(ChatRequest(text, DEFAULT_MODEL))
        case Some(name) =>
          if IsModelName(name) then
            StripIdempotent(message);
            Ok(ChatRequest(text, name))
          else InvalidInput
  }

  /** The default model satisfies the model pattern, although it is never
      checked against it. */
  lemma DefaultModelIsWellFormed()
    ensures IsModelName(DEFAULT_MODEL)
  {
  }

  /** Stripping twice is stripping once. */
  lemma StripIdempotent(s: string)
    ensures Strip(Strip(s)) == Strip(s)
  {
    var r := Strip(s);
    if r != [] {
      assert LeadingSpaces(r) == 0;
      assert TrailingSpaces(r) == 0;
    }
  }

  /** Any casing of a marker, e.g. "<ScRiPt", anywhere in a message makes
      `validate_message` report a security risk. */
  lemma CasedMarkerIsRisk(v: string, variant: string, k: nat)
    requires k < |DANGEROUS_MARKERS|
    requires Lower(variant) == Lower(DANGEROUS_MARKERS[k])
    requires Contains(v, variant)
    ensures ValidateMessage(v) == SecurityRisk
  {
    ContainsLowered(v, variant);
    var i :| 0 <= i <= |v| - |variant| && variant <= v[i..];
    assert Lower(variant)[0] == Lower(DANGEROUS_MARKERS[k])[0];
    assert !IsSpace(v[i]);
  }

  /** A message that is whitespace only is invalid input, whatever its length. */
  lemma BlankMessageIsInvalid(message: string, model: Option<string>)
    requires AllSpace(message)
    ensures ParseChatRequest(message, model) == InvalidInput
  {
  }
}
