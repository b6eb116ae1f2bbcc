/** The UUID shape check of `src/services/validation.ts`: the anchored,
    case-insensitive pattern of five hex groups (8-4-4-4-12) joined by
    hyphens, the text form of RFC 4122 section 3. Version and variant
    nibbles are not checked. */
module Uuid {
  import opened Js
  import opened Text

  predicate AllHex(s: string) {
    forall i :: 0 <= i < |s| ==> IsHexDigit(s[i])
  }

  /** `s` is hex groups of the given lengths separated by single hyphens,
      and nothing else: the regular expression read group by group. */
  predicate Groups(s: string, lengths: seq<nat>)
    decreases |lengths|
  {
    if |lengths| == 0 then s == ""
    else
      var n := lengths[0];
      |s| >= n && AllHex(s[..n])
      && if |lengths| == 1 then |s| == n
         else |s| > n && s[n] == '-' && Groups(s[n + 1..], lengths[1..])
  }

  const GroupLengths: seq<nat> := [8, 4, 4, 4, 12]

  /** `isValidUUID(id)`: the string is non-empty and the whole of it
      matches the pattern. */
  predicate IsValidUUID(id: string) {
    id != "" && Groups(id, GroupLengths)
  }

  /** Positions of the four hyphens in a 36-character UUID. */
  predicate IsHyphenPos(i: int) { i == 8 || i == 13 || i == 18 || i == 23 }

  /** The positional reading of the same pattern. */
  predicate UuidShape(s: string) {
    |s| == 36
    && forall i :: 0 <= i < 36 ==> (if IsHyphenPos(i) then s[i] == '-' else IsHexDigit(s[i]))
  }

  /** `isValidUUID` holds exactly for strings of length 36 with hyphens at
      8, 13, 18 and 23 and a hex digit of either case everywhere else. */
  lemma ValidUUIDIffShape(s: string)
    ensures IsValidUUID(s) <==> UuidShape(s)
  {
    if IsValidUUID(s) {
      var s1 := s[9..];
      var s2 := s1[5..];
      var s3 := s2[5..];
      var s4 := s3[5..];
      assert Groups(s1, [4, 4, 4, 12]);
      assert Groups(s2, [4, 4, 12]);
      assert Groups(s3, [4, 12]);
      assert Groups(s4, [12]);
      forall i | 0 <= i < 36
        ensures if IsHyphenPos(i) then s[i] == '-' else IsHexDigit(s[i])
      {
        if i < 8 { assert s[..8][i] == s[i]; }
        else if 8 < i < 13 { assert s1[..4][i - 9] == s[i]; }
        else if 13 < i < 18 { assert s2[..4][i - 14] == s[i]; }
        else if 18 < i < 23 { assert s3[..4][i - 19] == s[i]; }
        else if 23 < i { assert s4[..12][i - 24] == s[i]; }
      }
    }
    if UuidShape(s) {
      var s1 := s[9..];
      var s2 := s1[5..];
      var s3 := s2[5..];
      var s4 := s3[5..];
      assert AllHex(s4[..12]) by {
        forall i | 0 <= i < 12 ensures IsHexDigit(s4[..12][i]) { assert s4[i] == s[i + 24]; }
      }
      assert Groups(s4, [12]);
      assert AllHex(s3[..4]) by {
        forall i | 0 <= i < 4 ensures IsHexDigit(s3[..4][i]) { assert s3[i] == s[i + 19]; }
      }
      assert [4, 12][1..] == [12];
      assert Groups(s3, [4, 12]);
      assert AllHex(s2[..4]) by {
        forall i | 0 <= i < 4 ensures IsHexDigit(s2[..4][i]) { assert s2[i] == s[i + 14]; }
      }
      assert [4, 4, 12][1..] == [4, 12];
      assert Groups(s2, [4, 4, 12]);
      assert AllHex(s1[..4]) by {
        forall i | 0 <= i < 4 ensures IsHexDigit(s1[..4][i]) { assert s1[i] == s[i + 9]; }
      }
      assert [4, 4, 4, 12][1..] == [4, 4, 12];
      assert Groups(s1, [4, 4, 4, 12]);
      assert AllHex(s[..8]) by {
        forall i | 0 <= i < 8 ensures IsHexDigit(s[..8][i]) { assert s[..8][i] == s[i]; }
      }
      assert GroupLengths[1..] == [4, 4, 4, 12];
    }
  }

  /** The pattern is anchored at both ends: the empty string fails, and a
      valid UUID with any character added in front or behind fails. */
  lemma AnchoredBothEnds(s: string, c: char)
    ensures !IsValidUUID("")
    ensures IsValidUUID(s) ==> !IsValidUUID([c] + s) && !IsValidUUID(s + [c])
  {
    ValidUUIDIffShape(s);
    ValidUUIDIffShape([c] + s);
    ValidUUIDIffShape(s + [c]);
  }

  /** `validateUUID(id, fieldName)`: `None` stands for a valid id (the
      source's `null`), otherwise the message. */
  function ValidateUUID(id: Option<string>, fieldName: string): (r: Option<string>)
    ensures (id.None? || id.value == "") ==> r == Some(fieldName + " is required")
    ensures r.None? <==> id.Some? && IsValidUUID(id.value)
    ensures id.Some? && id.value != "" && !IsValidUUID(id.value) ==> r == Some("Invalid " + fieldName + " format")
  {
    if id.None? || id.value == "" then Some(fieldName + " is required")
    else if !IsValidUUID(id.value) then Some("Invalid " + fieldName + " format")
    else None
  }

  /** The field name `validateUUID` uses when the caller gives none. */
  const DefaultFieldName := "ID"

  /** `validateUUID(id)` with the default field name. */
  function ValidateUUIDDefault(id: Option<string>): (r: Option<string>)
    ensures (id.None? || id.value == "") ==> r == Some("ID is required")
    ensures id.Some? && id.value != "" && !IsValidUUID(id.value) ==> r == Some("Invalid ID format")
    ensures r.None? <==> id.Some? && IsValidUUID(id.value)
  {
    assert DefaultFieldName + " is required" == "ID is required";
    assert "Invalid " + DefaultFieldName + " format" == "Invalid ID format";
    ValidateUUID(id, DefaultFieldName)
  }

  /** `isValidUUID(v)` applied to an arbitrary JSON value, as the request
      handlers do: the regular expression tests `String(v)`. A one-element
      array prints as its element, so `["<uuid>"]` passes; every other
      non-string value prints as something that is not a UUID (numbers
      carry at most two hyphens, longer arrays a comma). */
  predicate UuidLike(j: Json)
    decreases j
  {
    match j
    case JStr(s) => IsValidUUID(s)
    case JArr(xs) => |xs| == 1 && (xs[0].JStr? || xs[0].JArr?) && UuidLike(xs[0])
    case _ => false
  }

  /** A string value passes the coerced check exactly when it passes the
      plain one; objects, numbers, booleans and null never pass. */
  lemma UuidLikeOnScalars(j: Json)
    ensures j.JStr? ==> (UuidLike(j) <==> IsValidUUID(j.s))
    ensures (j.JNull? || j.JBool? || j.JNum? || j.JObj?) ==> !UuidLike(j)
    ensures UuidLike(j) ==> Truthy(j)
  {
  }
}
