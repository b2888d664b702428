/**
 * The validator for the text of a post or a comment. It normalises the `text`
 * field and sorts the input into exactly one of three outcomes: the field is
 * required, its length is out of bounds, or it is valid.
 */
module PostValidation {
  import opened Js

  const RequiredMessage: string := "Post field is required"
  const LengthMessage: string := "Post length must be between 10 and 300 characters"

  /** Inclusive length bounds of a post's text. */
  const MinLength: nat := 10
  const MaxLength: nat := 300

  /** The characters that String.prototype.trim strips (white space and line terminators). */
  predicate IsTrimmable(c: char) {
    || c == ' ' || c == '\t' || c == '\n' || c == '\r'
    || c == '\U{000B}' || c == '\U{000C}' || c == '\U{00A0}' || c == '\U{1680}'
    || ('\U{2000}' <= c <= '\U{200A}')
    || c == '\U{2028}' || c == '\U{2029}' || c == '\U{202F}' || c == '\U{205F}'
    || c == '\U{3000}' || c == '\U{FEFF}'
  }

  /**
   * The project's is-empty helper on a field that is absent or a string: true
   * when the field is absent or nothing is left once it is trimmed.
   */
  predicate IsEmptyValue(v: Option<string>)
    ensures v.None? || v.value == "" ==> IsEmptyValue(v)
    ensures v.Some? && (exists i :: 0 <= i < |v.value| && !IsTrimmable(v.value[i])) ==> !IsEmptyValue(v)
    ensures !IsEmptyValue(v) ==> Truthy(v)
  {
    v.None? || forall i :: 0 <= i < |v.value| ==> IsTrimmable(v.value[i])
  }

  /** What the validator hands back: the error map, the validity flag, and `data.text` as it leaves it. */
  datatype Validation = Validation(errors: map<string, string>, isValid: bool, text: string)

  /**
   * validatePostInput. A blank or absent text is replaced by "" and reported
   * as required; otherwise the text is kept as given and must be 10 to 300
   * characters long, bounds included. The result is valid exactly when the
   * error map is empty.
   */
  function ValidatePostInput(text: Option<string>): (r: Validation)
    ensures IsEmptyValue(text) ==> r.text == ""
    ensures !IsEmptyValue(text) ==> r.text == text.value
    ensures r.isValid <==> r.errors == map[]
    ensures r.errors.Keys <= {"text"}
    ensures IsEmptyValue(text) ==> r.errors == map["text" := RequiredMessage] && !r.isValid
    ensures !IsEmptyValue(text) && (|text.value| < MinLength || |text.value| > MaxLength) ==>
              r.errors == map["text" := LengthMessage] && !r.isValid
    ensures r.isValid <==> !IsEmptyValue(text) && MinLength <= |text.value| <= MaxLength
  {
    var t := if !IsEmptyValue(text) then text.value else "";
    var errors :=
      if t == "" then map["text" := RequiredMessage]
      else if !(MinLength <= |t| <= MaxLength) then map["text" := LengthMessage]
      else map[];
    assert errors != map[] <==> "text" in errors;
    Validation(errors, errors == map[], t)
  }

  /**
   * The required error and the length error never occur together: the error
   * map is empty or holds exactly one of the two messages under `text`.
   */
  lemma OutcomesAreExclusive(text: Option<string>)
    ensures var r := ValidatePostInput(text);
            r.errors == map[] || r.errors == map["text" := RequiredMessage] || r.errors == map["text" := LengthMessage]
    ensures var r := ValidatePostInput(text);
            !(r.errors == map["text" := RequiredMessage] && r.errors == map["text" := LengthMessage])
  {
    var r := ValidatePostInput(text);
    assert RequiredMessage != LengthMessage by {
      assert RequiredMessage[5] != LengthMessage[5];
    }
    if r.errors == map["text" := RequiredMessage] {
      assert r.errors["text"] != LengthMessage;
    }
  }

  /** Valid input is never rewritten: the handlers may use the text as it came in. */
  lemma ValidTextIsUntouched(text: Option<string>)
    requires ValidatePostInput(text).isValid
    ensures text.Some? && ValidatePostInput(text).text == text.value
    ensures MinLength <= |text.value| <= MaxLength
  {
  }
}
