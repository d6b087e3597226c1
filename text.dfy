/** The string primitives the form logic relies on: JavaScript's `trim`, the
    regular expression `\s+` used to split the trainer name, single-character
    `toLowerCase`, and the emoji-stripping regular expression applied to the
    species label. Strings are sequences of code points. */
module Text {

  /** A character JavaScript counts as white space or a line terminator (the
      set `String.prototype.trim` removes and `\s` matches). */
  predicate IsSpace(c: char) {
    || ('\U{0009}' <= c <= '\U{000D}') || c == ' ' || c == '\U{00A0}' || c == '\U{1680}'
    || ('\U{2000}' <= c <= '\U{200A}') || c == '\U{2028}' || c == '\U{2029}'
    || c == '\U{202F}' || c == '\U{205F}' || c == '\U{3000}' || c == '\U{FEFF}'
  }

  predicate NoSpace(s: string) {
    forall i :: 0 <= i < |s| ==> !IsSpace(s[i])
  }

  /** Removes leading white space; what remains starts with a non-space. */
  function TrimStart(s: string): (r: string)
    ensures |r| <= |s|
    ensures r != [] ==> !IsSpace(r[0])
    decreases |s|
  {
    if |s| > 0 && IsSpace(s[0]) then TrimStart(s[1..]) else s
  }

  /** What `TrimStart` keeps is a suffix of `s`, and all it cut off was white
      space. */
  lemma {:induction false} TrimStartSlice(s: string)
    ensures TrimStart(s) == s[|s| - |TrimStart(s)|..]
    ensures forall i :: 0 <= i < |s| - |TrimStart(s)| ==> IsSpace(s[i])
    decreases |s|
  {
    if |s| > 0 && IsSpace(s[0]) {
      TrimStartSlice(s[1..]);
    }
  }

  /** Removes trailing white space; what remains ends with a non-space. */
  function TrimEnd(s: string): (r: string)
    ensures |r| <= |s|
    ensures r != [] ==> !IsSpace(r[|r| - 1])
    decreases |s|
  {
    if |s| > 0 && IsSpace(s[|s| - 1]) then TrimEnd(s[..|s| - 1]) else s
  }

  /** What `TrimEnd` keeps is a prefix of `s`, and all it cut off was white
      space. */
  lemma {:induction false} TrimEndSlice(s: string)
    ensures TrimEnd(s) == s[..|TrimEnd(s)|]
    ensures forall i :: |TrimEnd(s)| <= i < |s| ==> IsSpace(s[i])
    decreases |s|
  {
    if |s| > 0 && IsSpace(s[|s| - 1]) {
      TrimEndSlice(s[..|s| - 1]);
      var p := s[..|s| - 1];
      assert forall i :: 0 <= i < |p| ==> p[i] == s[i];
    }
  }

  /** How many white-space characters `trim` removes from the front. */
  function LeadingSpaces(s: string): (n: nat)
    ensures n <= |s|
  {
    |s| - |TrimStart(s)|
  }

  /** `s.trim()`: neither starts nor ends with white space. */
  function Trim(s: string): (r: string)
    ensures LeadingSpaces(s) + |r| <= |s|
    ensures r != [] ==> !IsSpace(r[0]) && !IsSpace(r[|r| - 1])
  {
    var t := TrimStart(s);
    TrimEndSlice(t);
    TrimEnd(t)
  }

  /** The trimmed string is the slice of `s` after its leading white space,
      and everything outside that slice is white space. */
  lemma TrimSlice(s: string)
    ensures Trim(s) == s[LeadingSpaces(s)..LeadingSpaces(s) + |Trim(s)|]
    ensures forall k :: 0 <= k < LeadingSpaces(s) ==> IsSpace(s[k])
    ensures forall k :: LeadingSpaces(s) + |Trim(s)| <= k < |s| ==> IsSpace(s[k])
  {
    var t := TrimStart(s);
    var r := Trim(s);
    var i := LeadingSpaces(s);
    TrimStartSlice(s);
    TrimEndSlice(t);
    assert forall k :: i + |r| <= k < |s| ==> s[k] == t[k - i];
  }

  /** Trimming a string that does not start or end with white space changes
      nothing. */
  lemma TrimUnchanged(s: string)
    requires s != [] ==> !IsSpace(s[0]) && !IsSpace(s[|s| - 1])
    ensures Trim(s) == s
  {
  }

  /** `trim` is idempotent. */
  lemma TrimIdempotent(s: string)
    ensures Trim(Trim(s)) == Trim(s)
  {
    TrimUnchanged(Trim(s));
  }

  /** The trimmed string is empty exactly when `s` is all white space. */
  lemma TrimEmptyIff(s: string)
    ensures Trim(s) == [] <==> forall i :: 0 <= i < |s| ==> IsSpace(s[i])
  {
    TrimSlice(s);
  }

  /** Number of maximal white-space runs in `s`, counted from the end. */
  function SpaceRuns(s: string): (n: nat)
    ensures n <= |s|
    ensures n == 0 <==> NoSpace(s)
    decreases |s|
  {
    if s == [] then 0
    else
      var p := s[..|s| - 1];
      var starts := IsSpace(s[|s| - 1]) && (|s| == 1 || !IsSpace(s[|s| - 2]));
      assert forall i :: 0 <= i < |p| ==> p[i] == s[i];
      assert NoSpace(s) <==> NoSpace(p) && !IsSpace(s[|s| - 1]);
      SpaceRuns(p) + (if starts then 1 else 0)
  }

  /** `s.split(/\s+/).length`: one piece more than there are white-space runs
      (an empty string still yields one, empty, piece). */
  function SplitLength(s: string): (n: nat)
    ensures 1 <= n <= |s| + 1
    ensures n == 1 <==> NoSpace(s)
  {
    1 + SpaceRuns(s)
  }

  /** Single-character `toLowerCase` for the Basic Latin and Latin-1 letters. */
  function LowerChar(c: char): (r: char)
    ensures !('A' <= r <= 'Z')
    ensures 'A' <= c <= 'Z' ==> 'a' <= r <= 'z' && r as int - 'a' as int == c as int - 'A' as int
    ensures '\U{00C0}' <= c <= '\U{00DE}' && c != '\U{00D7}' ==> r as int == c as int + 0x20
    ensures !('A' <= c <= 'Z') && !('\U{00C0}' <= c <= '\U{00DE}' && c != '\U{00D7}') ==> r == c
  {
    if 'A' <= c <= 'Z' || ('\U{00C0}' <= c <= '\U{00DE}' && c != '\U{00D7}')
    then (c as int + 32) as char
    else c
  }

  /** The code points the species regular expression removes:
      U+1F300..U+1F9FF, U+2600..U+26FF and U+2700..U+27BF. */
  predicate IsPictograph(c: char) {
    || ('\U{1F300}' <= c <= '\U{1F9FF}')
    || ('\U{2600}' <= c <= '\U{26FF}')
    || ('\U{2700}' <= c <= '\U{27BF}')
  }

  /** `s.replace(<pictograph ranges>/gu, "")`: keeps exactly the characters of
      `s` that are not pictographs, in order. */
  function StripPictographs(s: string): (r: string)
    ensures |r| <= |s|
    ensures forall c :: c in r <==> c in s && !IsPictograph(c)
    decreases |s|
  {
    if s == [] then []
    else if IsPictograph(s[0]) then StripPictographs(s[1..])
    else [s[0]] + StripPictographs(s[1..])
  }

  predicate NoPictograph(s: string) {
    forall i :: 0 <= i < |s| ==> !IsPictograph(s[i])
  }

  /** The replacement works character by character: it distributes over
      concatenation, so the kept characters stay in order with their repeats. */
  lemma {:induction false} StripPictographsAppend(a: string, b: string)
    ensures StripPictographs(a + b) == StripPictographs(a) + StripPictographs(b)
    decreases |a|
  {
    if a == [] {
      assert a + b == b;
    } else {
      assert (a + b)[0] == a[0] && (a + b)[1..] == a[1..] + b;
      StripPictographsAppend(a[1..], b);
    }
  }

  /** A string without pictographs is left as it is. */
  lemma {:induction false} StripPictographsNone(s: string)
    requires NoPictograph(s)
    ensures StripPictographs(s) == s
    decreases |s|
  {
    if s != [] {
      StripPictographsNone(s[1..]);
    }
  }

  /** The species label as both prompts print it: pictographs removed, then
      trimmed. */
  function SpeciesName(species: string): (r: string)
    ensures forall c :: c in r ==> c in species && !IsPictograph(c)
    ensures r != [] ==> !IsSpace(r[0]) && !IsSpace(r[|r| - 1])
  {
    var stripped := StripPictographs(species);
    var r := Trim(stripped);
    TrimSlice(stripped);
    assert forall c :: c in r ==> c in stripped;
    r
  }

  /** A string without pictographs that neither starts nor ends with white
      space prints as itself. */
  lemma SpeciesNameClean(s: string)
    requires NoPictograph(s)
    requires s != [] ==> !IsSpace(s[0]) && !IsSpace(s[|s| - 1])
    ensures SpeciesName(s) == s
  {
    StripPictographsNone(s);
    TrimUnchanged(s);
  }

  /** A label made of one pictograph, a space and a clean name prints as the
      name. */
  lemma SpeciesNameOfLabel(s: string)
    requires |s| >= 3 && IsPictograph(s[0]) && s[1] == ' '
    requires NoPictograph(s[2..]) && !IsSpace(s[2]) && !IsSpace(s[|s| - 1])
    ensures SpeciesName(s) == s[2..]
  {
    assert s == [s[0]] + (s[1..2] + s[2..]);
    StripPictographsAppend([s[0]], s[1..2] + s[2..]);
    StripPictographsAppend(s[1..2], s[2..]);
    StripPictographsNone(s[2..]);
    var stripped := StripPictographs(s);
    assert stripped == [' '] + s[2..];
    TrimSlice(stripped);
    assert TrimStart(stripped) == s[2..];
    TrimUnchanged(s[2..]);
  }
}
