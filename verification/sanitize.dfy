/** `InputSanitizationService` (`src/services/InputSanitizationService.ts`):
    HTML stripping, the text check (strip, trim, length, allowed characters,
    suspicious content, first failure wins) and the number check (parse,
    integer, lower bound, upper bound). The suspicious-content test, a list
    of 26 regular expressions, is a parameter. */
module Sanitize {
  import opened Js
  import opened Text
  import opened Numbers

  /* ---------------- stripHtml ---------------- */

  /** The five patterns `stripHtml` removes, in order. */
  datatype Pattern =
    | Tag                 // <[^>]*>
    | Entity              // &[a-zA-Z0-9#]+;
    | Literal(w: string)  // javascript: and vbscript:, case-insensitive
    | Handler             // on\w+\s*=, case-insensitive

  predicate IsEntityChar(c: char) { IsLetter(c) || IsDigit(c) || c == '#' }

  /** Length of the longest prefix whose characters all satisfy the class. */
  function EntityRun(s: string): (n: nat)
    ensures n <= |s|
    ensures n < |s| ==> !IsEntityChar(s[n])
  {
    if |s| > 0 && IsEntityChar(s[0]) then 1 + EntityRun(s[1..]) else 0
  }

  function WordRun(s: string): (n: nat)
    ensures n <= |s|
    ensures forall i :: 0 <= i < n ==> IsWordChar(s[i])
    ensures n < |s| ==> !IsWordChar(s[n])
  {
    if |s| > 0 && IsWordChar(s[0]) then 1 + WordRun(s[1..]) else 0
  }

  function SpaceRun(s: string): (n: nat)
    ensures n <= |s|
    ensures n < |s| ==> !IsSpace(s[n])
  {
    if |s| > 0 && IsSpace(s[0]) then 1 + SpaceRun(s[1..]) else 0
  }

  /** Position of the first `c` in `s`, if any. */
  function IndexOf(s: string, c: char): (r: Option<nat>)
    ensures r.Some? ==> r.value < |s| && s[r.value] == c && forall i :: 0 <= i < r.value ==> s[i] != c
    ensures r.None? ==> forall i :: 0 <= i < |s| ==> s[i] != c
  {
    if |s| == 0 then None
    else if s[0] == c then Some(0)
    else
      var r := IndexOf(s[1..], c);
      if r.Some? then Some(r.value + 1) else None
  }

  /** Length of the pattern's match at the very start of `s`, 0 for none.
      Each pattern has exactly one possible match length at a position:
      backtracking cannot help, because the character that stops a greedy
      run can never be the one the pattern needs next. */
  function MatchLen(p: Pattern, s: string): (n: nat)
    ensures n <= |s|
    ensures p.Tag? && n > 0 ==> (n >= 2 && s[0] == '<' && s[n - 1] == '>'
      && forall i :: 1 <= i < n - 1 ==> s[i] != '>')
    ensures p.Tag? && |s| > 0 && s[0] == '<' && n == 0 ==> forall i :: 1 <= i < |s| ==> s[i] != '>'
  {
    match p
    case Tag =>
      if |s| > 0 && s[0] == '<' then
        var close := IndexOf(s[1..], '>');
        if close.Some? then close.value + 2 else 0
      else 0
    case Entity =>
      if |s| > 0 && s[0] == '&' then
        var run := EntityRun(s[1..]);
        if run >= 1 && 1 + run < |s| && s[1 + run] == ';' then run + 2 else 0
      else 0
    case Literal(w) => if |w| > 0 && StartsWithCI(s, w) then |w| else 0
    case Handler =>
      if |s| >= 2 && CharEqCI(s[0], 'o') && CharEqCI(s[1], 'n') then
        var word := WordRun(s[2..]);
        var space := SpaceRun(s[2 + word..]);
        if word >= 1 && 2 + word + space < |s| && s[2 + word + space] == '=' then word + space + 3 else 0
      else 0
  }

  /** `s.replace(/pattern/g, "")`: scanning left to right, every match is
      removed and the scan resumes right after it. */
  function Scrub(s: string, p: Pattern): (r: string)
    ensures |r| <= |s|
    ensures forall c :: c in r ==> c in s
    decreases |s|
  {
    if |s| == 0 then ""
    else
      var n := MatchLen(p, s);
      if n > 0 then
        var r := Scrub(s[n..], p);
        assert forall c :: c in s[n..] ==> c in s;
        r
      else
        var r := [s[0]] + Scrub(s[1..], p);
        assert forall c :: c in s[1..] ==> c in s;
        r
  }

  /** `stripHtml(input)`. */
  function StripHtml(input: string): (r: string)
    ensures |r| <= |input|
    ensures forall c :: c in r ==> c in input
  {
    var noTags := Scrub(input, Tag);
    var noEntities := Scrub(noTags, Entity);
    var noJs := Scrub(noEntities, Literal("javascript:"));
    var noVb := Scrub(noJs, Literal("vbscript:"));
    Scrub(noVb, Handler)
  }

  /** No `<` is followed, anywhere later, by a `>`. */
  predicate NoTag(s: string) {
    forall i, j :: 0 <= i < j < |s| && s[i] == '<' ==> s[j] != '>'
  }

  /** Removing the tags leaves no `<` with a `>` after it. */
  lemma {:induction false} ScrubTagsLeavesNoTag(s: string)
    ensures NoTag(Scrub(s, Tag))
    decreases |s|
  {
    if |s| > 0 {
      var n := MatchLen(Tag, s);
      if n > 0 {
        ScrubTagsLeavesNoTag(s[n..]);
      } else {
        var tail := Scrub(s[1..], Tag);
        ScrubTagsLeavesNoTag(s[1..]);
        if s[0] == '<' {
          assert forall c :: c in s[1..] ==> c != '>';
          assert forall k :: 0 <= k < |tail| ==> tail[k] != '>' by {
            forall k | 0 <= k < |tail| ensures tail[k] != '>' { assert tail[k] in tail; }
          }
        }
        assert Scrub(s, Tag) == [s[0]] + tail;
      }
    }
  }

  /** Removing characters never creates a tag. */
  lemma {:induction false} ScrubKeepsNoTag(s: string, p: Pattern)
    requires NoTag(s)
    ensures NoTag(Scrub(s, p))
    decreases |s|
  {
    if |s| > 0 {
      var n := MatchLen(p, s);
      if n > 0 {
        assert NoTag(s[n..]) by {
          forall i, j | 0 <= i < j < |s[n..]| && s[n..][i] == '<' ensures s[n..][j] != '>' {
            assert s[n..][i] == s[n + i] && s[n..][j] == s[n + j];
          }
        }
        ScrubKeepsNoTag(s[n..], p);
      } else {
        assert NoTag(s[1..]) by {
          forall i, j | 0 <= i < j < |s[1..]| && s[1..][i] == '<' ensures s[1..][j] != '>' {
            assert s[1..][i] == s[1 + i] && s[1..][j] == s[1 + j];
          }
        }
        ScrubKeepsNoTag(s[1..], p);
        var tail := Scrub(s[1..], p);
        if s[0] == '<' {
          assert forall k :: 0 <= k < |tail| ==> tail[k] != '>' by {
            forall k | 0 <= k < |tail| ensures tail[k] != '>' {
              assert tail[k] in tail;
              var j :| 0 <= j < |s[1..]| && s[1..][j] == tail[k];
              assert s[1 + j] == tail[k];
            }
          }
        }
        assert Scrub(s, p) == [s[0]] + tail;
      }
    }
  }

  /** After `stripHtml` no `<` is followed later by a `>`: tag removal is
      global, and the later steps only delete characters. */
  lemma StripHtmlLeavesNoTag(input: string)
    ensures NoTag(StripHtml(input))
  {
    var noTags := Scrub(input, Tag);
    ScrubTagsLeavesNoTag(input);
    var noEntities := Scrub(noTags, Entity);
    ScrubKeepsNoTag(noTags, Entity);
    var noJs := Scrub(noEntities, Literal("javascript:"));
    ScrubKeepsNoTag(noEntities, Literal("javascript:"));
    var noVb := Scrub(noJs, Literal("vbscript:"));
    ScrubKeepsNoTag(noJs, Literal("vbscript:"));
    ScrubKeepsNoTag(noVb, Handler);
  }

  /** A text with none of the five patterns' lead characters comes through
      `Scrub` unchanged. */
  lemma {:induction false} ScrubPlain(s: string, p: Pattern)
    requires forall i :: 0 <= i < |s| ==> MatchLen(p, s[i..]) == 0
    ensures Scrub(s, p) == s
    decreases |s|
  {
    if |s| > 0 {
      assert s[0..] == s;
      assert forall i :: 0 <= i < |s[1..]| ==> s[1..][i..] == s[1 + i..];
      ScrubPlain(s[1..], p);
    }
  }

  /* ---------------- sanitizeText ---------------- */

  /** The options of `sanitizeText`. `allowed` is the character class of
      the anchored `allowedChars` expression; it is only ever applied to a
      non-empty string, where `+` and `*` agree. */
  datatype TextOptions = TextOptions(maxLength: nat, allowed: char -> bool, trim: bool)

  datatype TextResult = TextResult(sanitized: string, isValid: bool, error: Option<string>)

  /** `[a-zA-Z0-9\s\-_.'"!?()]`, the default class, also the item class. */
  predicate ItemChar(c: char) {
    IsLetter(c) || IsDigit(c) || IsSpace(c) || c in "-_.'\"!?()"
  }

  /** `[a-zA-Z0-9\s\-_.'"!]`, the hero-name class. */
  predicate HeroChar(c: char) {
    IsLetter(c) || IsDigit(c) || IsSpace(c) || c in "-_.'\"!"
  }

  /** `maxLength = 100`, the item class and `trim = true`. */
  const DefaultTextOptions := TextOptions(100, ItemChar, true)

  predicate AllAllowed(s: string, allowed: char -> bool) {
    forall i :: 0 <= i < |s| ==> allowed(s[i])
  }

  /** `sanitizeText(input, options)`. `suspicious` is
      `containsSuspiciousContent`. */
  function SanitizeText(input: Json, options: TextOptions, suspicious: string -> bool): (r: TextResult)
    ensures !(input.JStr? && input.s != "") ==> r == TextResult("", false, Some("Input must be a valid string"))
    ensures input.JStr? && input.s != "" ==>
      r.sanitized == (if options.trim then Trim(StripHtml(input.s)) else StripHtml(input.s))
    ensures r.isValid <==> r.error.None?
    ensures r.isValid <==> (input.JStr? && input.s != ""
      && Utf16Length(r.sanitized) <= options.maxLength
      && AllAllowed(r.sanitized, options.allowed)
      && !suspicious(r.sanitized))
    ensures input.JStr? && input.s != "" && Utf16Length(r.sanitized) > options.maxLength ==>
      r.error == Some("Input must be " + IntToString(options.maxLength) + " characters or less")
    ensures (input.JStr? && input.s != "" && Utf16Length(r.sanitized) <= options.maxLength
      && !AllAllowed(r.sanitized, options.allowed)) ==>
      r.error == Some("Input contains invalid characters")
    ensures (input.JStr? && input.s != "" && Utf16Length(r.sanitized) <= options.maxLength
      && AllAllowed(r.sanitized, options.allowed) && suspicious(r.sanitized)) ==>
      r.error == Some("Input contains potentially dangerous content")
  {
    if !input.JStr? || input.s == "" then TextResult("", false, Some("Input must be a valid string"))
    else
      var stripped := StripHtml(input.s);
      var sanitized := if options.trim then Trim(stripped) else stripped;
      if Utf16Length(sanitized) > options.maxLength then
        TextResult(sanitized, false, Some("Input must be " + IntToString(options.maxLength) + " characters or less"))
      else if sanitized != "" && !AllAllowed(sanitized, options.allowed) then
        TextResult(sanitized, false, Some("Input contains invalid characters"))
      else if suspicious(sanitized) then
        TextResult(sanitized, false, Some("Input contains potentially dangerous content"))
      else TextResult(sanitized, true, None)
  }

  /** An input that strips to nothing is valid, provided the empty string
      is not suspicious. */
  lemma StripsToEmptyIsValid(input: string, options: TextOptions, suspicious: string -> bool)
    requires input != "" && StripHtml(input) == "" && !suspicious("")
    ensures SanitizeText(JStr(input), options, suspicious) == TextResult("", true, None)
  {
  }

  /** `sanitizeHeroName`: at most 50 units, the hero class, no trim. */
  function SanitizeHeroName(input: Json, suspicious: string -> bool): (r: TextResult)
    ensures input.JStr? && input.s != "" ==> r.sanitized == StripHtml(input.s)
    ensures r.isValid <==> (input.JStr? && input.s != "" && Utf16Length(StripHtml(input.s)) <= 50
      && AllAllowed(StripHtml(input.s), HeroChar) && !suspicious(StripHtml(input.s)))
  {
    SanitizeText(input, TextOptions(50, HeroChar, false), suspicious)
  }

  /** `sanitizeItemName`: at most 100 units, the item class, no trim. */
  function SanitizeItemName(input: Json, suspicious: string -> bool): (r: TextResult)
    ensures input.JStr? && input.s != "" ==> r.sanitized == StripHtml(input.s)
    ensures r.isValid <==> (input.JStr? && input.s != "" && Utf16Length(StripHtml(input.s)) <= 100
      && AllAllowed(StripHtml(input.s), ItemChar) && !suspicious(StripHtml(input.s)))
  {
    SanitizeText(input, TextOptions(100, ItemChar, false), suspicious)
  }

  /** The hero-name class is the item class without `?`, `(` and `)`. */
  lemma HeroCharsAreItemChars(c: char)
    ensures HeroChar(c) ==> ItemChar(c)
    ensures ItemChar(c) && !HeroChar(c) <==> c == '?' || c == '(' || c == ')'
  {
  }

  /* ---------------- sanitizeNumber ---------------- */

  /** A string or a number. */
  datatype NumInput = NumText(text: string) | NumValue(n: Num)

  datatype NumOptions = NumOptions(min: int, max: int, integer: bool)

  datatype NumResult = NumResult(sanitized: Num, isValid: bool, error: Option<string>)

  /** `Number.MAX_SAFE_INTEGER`. */
  const MaxSafeInteger: int := 9007199254740991

  const DefaultNumOptions := NumOptions(0, MaxSafeInteger, false)

  predicate NumericChar(c: char) { IsDigit(c) || c == '.' || c == '-' }

  /** `input.replace(/[^0-9.-]/g, "")`. */
  function KeepNumeric(s: string): (r: string)
    ensures forall i :: 0 <= i < |r| ==> NumericChar(r[i])
    ensures |r| <= |s|
    ensures (forall i :: 0 <= i < |s| ==> NumericChar(s[i])) ==> r == s
  {
    if |s| == 0 then ""
    else if NumericChar(s[0]) then [s[0]] + KeepNumeric(s[1..])
    else KeepNumeric(s[1..])
  }

  /** `Math.floor` on a JS number. */
  function FloorNum(x: Num): (r: Num)
    ensures x.Fin? ==> r == Fin(x.v.Floor as real)
    ensures !x.Fin? ==> r == x
  {
    if x.Fin? then Fin(x.v.Floor as real) else x
  }

  /** The number the input denotes. */
  function NumberOf(input: NumInput): Num {
    match input
    case NumText(s) => ParseFloat(KeepNumeric(s))
    case NumValue(n) => n
  }

  /** `sanitizeNumber(input, options)`: NaN, then the integer check, then
      the inclusive lower and upper bounds. */
  function SanitizeNumber(input: NumInput, options: NumOptions): (r: NumResult)
    ensures r.isValid <==> r.error.None?
    ensures r.isValid <==> (!NumberOf(input).NaN? && (options.integer ==> IsInteger(NumberOf(input)))
      && !Lt(NumberOf(input), options.min as real) && !Gt(NumberOf(input), options.max as real))
    ensures NumberOf(input).NaN? ==> r == NumResult(Fin(0.0), false, Some("Input must be a valid number"))
    ensures !NumberOf(input).NaN? && options.integer && !IsInteger(NumberOf(input)) ==>
      r == NumResult(FloorNum(NumberOf(input)), false, Some("Input must be a whole number"))
    ensures r.isValid ==> r.sanitized == NumberOf(input)
    ensures var x := NumberOf(input);
      !x.NaN? && (options.integer ==> IsInteger(x)) && Lt(x, options.min as real) ==>
      r == NumResult(x, false, Some("Input must be greater than or equal to " + IntToString(options.min)))
    ensures var x := NumberOf(input);
      !x.NaN? && (options.integer ==> IsInteger(x)) && !Lt(x, options.min as real) && Gt(x, options.max as real) ==>
      r == NumResult(x, false, Some("Input must be less than or equal to " + IntToString(options.max)))
  {
    var x := NumberOf(input);
    if x.NaN? then NumResult(Fin(0.0), false, Some("Input must be a valid number"))
    else if options.integer && !IsInteger(x) then NumResult(FloorNum(x), false, Some("Input must be a whole number"))
    else if Lt(x, options.min as real) then
      NumResult(x, false, Some("Input must be greater than or equal to " + IntToString(options.min)))
    else if Gt(x, options.max as real) then
      NumResult(x, false, Some("Input must be less than or equal to " + IntToString(options.max)))
    else NumResult(x, true, None)
  }

  /** Cleaning a string twice is cleaning it once: the number check reads
      only the characters `[0-9.-]` of a string. */
  lemma SanitizeNumberReadsNumericChars(s: string, options: NumOptions)
    ensures KeepNumeric(KeepNumeric(s)) == KeepNumeric(s)
    ensures SanitizeNumber(NumText(KeepNumeric(s)), options) == SanitizeNumber(NumText(s), options)
  {
  }

  /** Accepted counts for `sanitizeRuns` and `sanitizeRarity`: exactly the
      whole numbers 1 to 1,000,000. */
  predicate InCountRange(x: Num) {
    x.Fin? && IsIntegral(x.v) && 1.0 <= x.v <= 1000000.0
  }

  /** `sanitizeRuns(input)`. */
  function SanitizeRuns(input: NumInput): (r: NumResult)
    ensures r.isValid <==> InCountRange(NumberOf(input))
  {
    SanitizeNumber(input, NumOptions(1, 1000000, true))
  }

  /** `sanitizeRarity(input)`. */
  function SanitizeRarity(input: NumInput): (r: NumResult)
    ensures r.isValid <==> InCountRange(NumberOf(input))
  {
    SanitizeNumber(input, NumOptions(1, 1000000, true))
  }

  /** The two count checks agree on every input, and the bounds are
      inclusive. */
  lemma CountBounds(input: NumInput)
    ensures SanitizeRuns(input) == SanitizeRarity(input)
    ensures SanitizeRuns(NumValue(Fin(1.0))).isValid && SanitizeRuns(NumValue(Fin(1000000.0))).isValid
    ensures !SanitizeRuns(NumValue(Fin(0.0))).isValid && !SanitizeRuns(NumValue(Fin(1000001.0))).isValid
    ensures SanitizeRuns(NumValue(Fin(2.5))) == NumResult(Fin(2.0), false, Some("Input must be a whole number"))
  {
    assert (2.5).Floor == 2;
  }
}
