/** Identifiers, request fields, handler responses and the string helpers
    (JavaScript's `trim` and `toLowerCase`) that every controller uses. */
module Common {

  /** A document id as the handlers see it: the string form of an ObjectId. */
  type Id = string

  datatype Option<T> = None | Some(value: T)

  /** What a handler ends with: a success status and its payload, or the
      status and message of the ApiError it throws. */
  datatype Response<T> = Ok(code: nat, value: T) | Error(status: nat, message: string)

  /** A digit of an ObjectId's canonical string form: 0-9 or a-f. */
  predicate IsHexDigit(c: char) {
    ('0' <= c <= '9') || ('a' <= c <= 'f')
  }

  /** An id in the canonical form `ObjectId.toString()` produces: 24
      lower-case hexadecimal digits. */
  predicate ValidId(s: Id) {
    |s| == 24 && forall i :: 0 <= i < |s| ==> IsHexDigit(s[i])
  }

  /** What `isValidObjectId` accepts of a request string: 24 hexadecimal
      digits, in either case. */
  predicate IsObjectIdString(s: string) {
    |s| == 24 && forall i :: 0 <= i < |s| ==> IsHexDigit(LowerChar(s[i]))
  }

  /** The id Mongoose casts such a string to when it builds an ObjectId: its
      lower-case form. A canonical id casts to itself. */
  function Cast(s: string): (id: Id)
    requires IsObjectIdString(s)
    ensures |id| == |s| && forall i :: 0 <= i < |s| ==> id[i] == LowerChar(s[i])
    ensures ValidId(id)
    ensures ValidId(s) ==> id == s
  {
    ToLower(s)
  }

  /** Every canonical id is accepted by `isValidObjectId`. */
  lemma {:induction false} CanonicalIdAccepted(s: Id)
    requires ValidId(s)
    ensures IsObjectIdString(s) && Cast(s) == s
  {
    forall i | 0 <= i < |s| ensures IsHexDigit(LowerChar(s[i])) {
      assert LowerChar(s[i]) == s[i];
    }
  }

  /** JavaScript truthiness of an optional string field of a request:
      present and not the empty string. */
  predicate Truthy(f: Option<string>) {
    f.Some? && f.value != ""
  }

  /** The characters `String.prototype.trim` strips: white space and line terminators. */
  predicate IsSpace(c: char) {
    c == ' ' || c == '\t' || c == '\n' || c == '\r' || c == '\U{B}' || c == '\U{C}'
    || c == '\U{A0}' || c == '\U{1680}' || ('\U{2000}' <= c <= '\U{200A}')
    || c == '\U{2028}' || c == '\U{2029}' || c == '\U{202F}' || c == '\U{205F}'
    || c == '\U{3000}' || c == '\U{FEFF}'
  }

  /** The length of the run of white space at the front of s. */
  function LeadingSpaces(s: string): (k: nat)
    ensures k <= |s|
    ensures forall i :: 0 <= i < k ==> IsSpace(s[i])
    ensures k < |s| ==> !IsSpace(s[k])
  {
    if s == [] || !IsSpace(s[0]) then 0 else 1 + LeadingSpaces(s[1..])
  }

  /** The length of the run of white space at the back of s. */
  function TrailingSpaces(s: string): (k: nat)
    ensures k <= |s|
    ensures forall i :: |s| - k <= i < |s| ==> IsSpace(s[i])
    ensures k < |s| ==> !IsSpace(s[|s| - 1 - k])
  {
    if s == [] || !IsSpace(s[|s| - 1]) then 0 else 1 + TrailingSpaces(s[..|s| - 1])
  }

  /** `s.trim()`: the slice of s left after white space is removed from both ends. */
  function Trim(s: string): (r: string)
    ensures LeadingSpaces(s) + |r| <= |s|
    ensures r == s[LeadingSpaces(s)..LeadingSpaces(s) + |r|]
    ensures forall i :: LeadingSpaces(s) + |r| <= i < |s| ==> IsSpace(s[i])
    ensures r != "" ==> !IsSpace(r[0]) && !IsSpace(r[|r| - 1])
  {
    var t := s[LeadingSpaces(s)..];
    t[..|t| - TrailingSpaces(t)]
  }

  /** `s.trim() === ''` holds exactly when every character of s is white space. */
  lemma {:induction false} TrimEmptyIffBlank(s: string)
    ensures Trim(s) == "" <==> forall i :: 0 <= i < |s| ==> IsSpace(s[i])
  {
    var k := LeadingSpaces(s);
    if Trim(s) != "" {
      assert Trim(s)[0] == s[k];
    }
  }

  /** A request field that is missing (or not a string) or holds only white
      space: the test `!v || v.trim() === ''`. */
  predicate Blank(v: Option<string>) {
    v.None? || Trim(v.value) == ""
  }

  /** A field is blank exactly when it is missing or all white space; a field
      that is not blank is truthy. */
  lemma {:induction false} BlankMeansWhiteSpace(v: Option<string>)
    ensures Blank(v) <==> v.None? || forall i :: 0 <= i < |v.value| ==> IsSpace(v.value[i])
    ensures !Blank(v) ==> Truthy(v)
  {
    if v.Some? {
      TrimEmptyIffBlank(v.value);
    }
  }

  /** Trimming a trimmed string changes nothing. */
  lemma {:induction false} TrimIdempotent(s: string)
    ensures Trim(Trim(s)) == Trim(s)
  {
    var r := Trim(s);
    if r != "" {
      assert LeadingSpaces(r) == 0;
      var t := r[LeadingSpaces(r)..];
      assert t == r;
      assert TrailingSpaces(t) == 0;
    }
  }

  /** ASCII lower-casing of one character. */
  function LowerChar(c: char): (d: char)
    ensures 'A' <= c <= 'Z' ==> 'a' <= d <= 'z' && d as int - c as int == 32
    ensures !('A' <= c <= 'Z') ==> d == c
  {
    if 'A' <= c <= 'Z' then (c as int + 32) as char else c
  }

  /** `s.toLowerCase()` on the letters A to Z. */
  function ToLower(s: string): (r: string)
    ensures |r| == |s|
    ensures forall i :: 0 <= i < |s| ==> r[i] == LowerChar(s[i])
    ensures forall i :: 0 <= i < |r| ==> !('A' <= r[i] <= 'Z')
  {
    seq(|s|, i requires 0 <= i < |s| => LowerChar(s[i]))
  }

  /** Lower-casing a lower-cased string changes nothing. */
  lemma {:induction false} ToLowerIdempotent(s: string)
    ensures ToLower(ToLower(s)) == ToLower(s)
  {
    assert forall i :: 0 <= i < |s| ==> ToLower(ToLower(s))[i] == ToLower(s)[i];
  }
}
