/** String normalisation of app.js: `normalize` (trim) and `normalizeKey`, the
    duplicate-detection key that ignores whitespace, character width and case. */
module Keys {
  import opened Wrappers

  /** The characters matched by the JavaScript regular-expression class `\s`
      (WhiteSpace and LineTerminator); `String.prototype.trim` strips the same set. */
  predicate IsSpace(c: char) {
    || c == '\t' || c == '\n' || c == '\U{000B}' || c == '\U{000C}' || c == '\r'
    || c == ' ' || c == '\U{00A0}' || c == '\U{1680}'
    || ('\U{2000}' <= c <= '\U{200A}')
    || c == '\U{2028}' || c == '\U{2029}' || c == '\U{202F}' || c == '\U{205F}'
    || c == '\U{3000}' || c == '\U{FEFF}'
  }

  /** Full-width Latin letters and digits: the class `[Ａ-Ｚａ-ｚ０-９]`. */
  predicate IsWideAlnum(c: char) {
    || ('\U{FF21}' <= c <= '\U{FF3A}')
    || ('\U{FF41}' <= c <= '\U{FF5A}')
    || ('\U{FF10}' <= c <= '\U{FF19}')
  }

  predicate IsAsciiUpper(c: char) {
    'A' <= c <= 'Z'
  }

  predicate IsAsciiAlnum(c: char) {
    ('A' <= c <= 'Z') || ('a' <= c <= 'z') || ('0' <= c <= '9')
  }

  /** True when every character of `s` is whitespace (the empty string included). */
  predicate Blank(s: string) {
    forall i :: 0 <= i < |s| ==> IsSpace(s[i])
  }

  /** A string that `normalizeKey` can return: no whitespace, no full-width
      letter or digit, no upper-case ASCII letter. */
  predicate IsKey(s: string) {
    forall i :: 0 <= i < |s| ==> !IsSpace(s[i]) && !IsWideAlnum(s[i]) && !IsAsciiUpper(s[i])
  }

  /** `(str || "")`: a missing value reads as the empty string. */
  function OrEmpty(str: Option<string>): string {
    str.GetOr("")
  }

  // ---------------------------------------------------------------------------
  // normalize: a missing value reads as empty, then the surrounding whitespace
  // is trimmed from both ends
  // ---------------------------------------------------------------------------

  /** Drops the leading whitespace of `s`. */
  function TrimStart(s: string): (r: string)
    ensures |r| <= |s| && r == s[|s| - |r|..]
    ensures Blank(s[..|s| - |r|])
    ensures r != [] ==> !IsSpace(r[0])
  {
    if s != [] && IsSpace(s[0]) then TrimStart(s[1..]) else s
  }

  /** Drops the trailing whitespace of `s`. */
  function TrimEnd(s: string): (r: string)
    ensures |r| <= |s| && r == s[..|r|]
    ensures Blank(s[|r|..])
    ensures r != [] ==> !IsSpace(r[|r| - 1])
  {
    if s != [] && IsSpace(s[|s| - 1]) then TrimEnd(s[..|s| - 1]) else s
  }

  /** `normalize`: the value with surrounding whitespace removed; empty exactly
      when the value is missing or all whitespace. */
  function Normalize(str: Option<string>): (r: string)
    ensures str.None? ==> r == ""
    ensures r == "" <==> Blank(OrEmpty(str))
    ensures r != "" ==> !IsSpace(r[0]) && !IsSpace(r[|r| - 1])
    ensures Framed(OrEmpty(str), r)
  {
    var s := OrEmpty(str);
    var t := TrimStart(s);
    var u := TrimEnd(t);
    EmptyWindow(s, t, u);
    WindowOf(s, t, u);
    u
  }

  /** A blank-suffixed prefix of a blank-prefixed suffix `t` of `s`, where `t` starts
      with non-whitespace, is empty exactly when `s` is all whitespace. */
  lemma EmptyWindow(s: string, t: string, u: string)
    requires |t| <= |s| && t == s[|s| - |t|..] && Blank(s[..|s| - |t|])
    requires t != [] ==> !IsSpace(t[0])
    requires |u| <= |t| && u == t[..|u|] && Blank(t[|u|..])
    ensures u == [] <==> Blank(s)
  {
    var k := |s| - |t|;
    if u == [] {
      assert t[|u|..] == t;
      assert s == s[..k] + t;
    } else {
      assert s[k] == t[0];
    }
  }

  /** `s` is a blank prefix, then `r`, then a blank suffix. */
  predicate Framed(s: string, r: string) {
    exists k :: 0 <= k <= |s| - |r| && r == s[k..k + |r|] && Blank(s[..k]) && Blank(s[k + |r|..])
  }

  /** A blank-suffixed prefix of a blank-prefixed suffix of `s` is framed in `s`. */
  lemma WindowOf(s: string, t: string, u: string)
    requires |t| <= |s| && t == s[|s| - |t|..] && Blank(s[..|s| - |t|])
    requires |u| <= |t| && u == t[..|u|] && Blank(t[|u|..])
    ensures Framed(s, u)
  {
    var k := |s| - |t|;
    assert s[k..k + |u|] == u;
    assert s[k + |u|..] == t[|u|..];
  }

  // ---------------------------------------------------------------------------
  // normalizeKey: a missing value reads as empty; then three stages: every
  // whitespace character is deleted, every full-width letter or digit is
  // narrowed to its ASCII form, and the result is lower-cased
  // ---------------------------------------------------------------------------

  /** The first `replace`: every whitespace character is deleted. */
  function RemoveSpaces(s: string): (r: string)
    ensures |r| <= |s|
    ensures forall i :: 0 <= i < |r| ==> !IsSpace(r[i])
  {
    if s == [] then [] else (if IsSpace(s[0]) then [] else [s[0]]) + RemoveSpaces(s[1..])
  }

  /** Only whitespace is deleted: every other character occurs in the result as often
      as in the input. */
  lemma {:induction false} RemoveSpacesKeeps(s: string, c: char)
    requires !IsSpace(c)
    ensures multiset(RemoveSpaces(s))[c] == multiset(s)[c]
  {
    if s != [] {
      assert s == [s[0]] + s[1..];
      RemoveSpacesKeeps(s[1..], c);
    }
  }

  /** One character of the second `replace`: full-width letters and digits move
      down by 0xFEE0 to their ASCII forms; everything else is kept. */
  function Narrow(c: char): (r: char)
    ensures !IsWideAlnum(r)
    ensures IsWideAlnum(c) ==> IsAsciiAlnum(r)
    ensures !IsSpace(c) ==> !IsSpace(r)
    // 'Ａ'..'Ｚ' become 'A'..'Z', 'ａ'..'ｚ' become 'a'..'z', '０'..'９' become '0'..'9'
    ensures '\U{FF21}' <= c <= '\U{FF3A}' ==> 'A' <= r <= 'Z' && r as int - 'A' as int == c as int - 0xFF21
    ensures '\U{FF41}' <= c <= '\U{FF5A}' ==> 'a' <= r <= 'z' && r as int - 'a' as int == c as int - 0xFF41
    ensures '\U{FF10}' <= c <= '\U{FF19}' ==> '0' <= r <= '9' && r as int - '0' as int == c as int - 0xFF10
    ensures !IsWideAlnum(c) ==> r == c
  {
    if IsWideAlnum(c) then (c as int - 0xFEE0) as char else c
  }

  /** The second `replace`, applied to every character. */
  function NarrowWidth(s: string): (r: string)
    ensures |r| == |s|
    ensures forall i :: 0 <= i < |s| ==> r[i] == Narrow(s[i])
  {
    if s == [] then [] else [Narrow(s[0])] + NarrowWidth(s[1..])
  }

  /** One character of `toLowerCase`, restricted to ASCII letters. */
  function LowerChar(c: char): (r: char)
    ensures !IsAsciiUpper(r)
    ensures IsAsciiUpper(c) ==> 'a' <= r <= 'z' && r as int - 'a' as int == c as int - 'A' as int
    ensures !IsAsciiUpper(c) ==> r == c
    ensures !IsSpace(c) ==> !IsSpace(r)
    ensures !IsWideAlnum(c) ==> !IsWideAlnum(r)
  {
    if IsAsciiUpper(c) then (c as int + 32) as char else c
  }

  /** `toLowerCase`, applied to every character. */
  function LowerCase(s: string): (r: string)
    ensures |r| == |s|
    ensures forall i :: 0 <= i < |s| ==> r[i] == LowerChar(s[i])
  {
    if s == [] then [] else [LowerChar(s[0])] + LowerCase(s[1..])
  }

  /** `normalizeKey`: the key holds no whitespace, no full-width letter or digit and
      no upper-case ASCII letter, and a missing value gives the empty key. */
  function NormalizeKey(str: Option<string>): (r: string)
    ensures str.None? ==> r == ""
    ensures IsKey(r)
  {
    LowerCase(NarrowWidth(RemoveSpaces(OrEmpty(str))))
  }

  // ---------------------------------------------------------------------------
  // Properties of the key
  // ---------------------------------------------------------------------------

  lemma {:induction false} RemoveSpacesAppend(a: string, b: string)
    ensures RemoveSpaces(a + b) == RemoveSpaces(a) + RemoveSpaces(b)
  {
    if a == [] {
      assert a + b == b;
    } else {
      assert (a + b)[0] == a[0];
      assert (a + b)[1..] == a[1..] + b;
      RemoveSpacesAppend(a[1..], b);
    }
  }

  lemma {:induction false} RemoveSpacesOfBlank(s: string)
    requires Blank(s)
    ensures RemoveSpaces(s) == []
  {
    if s != [] {
      RemoveSpacesOfBlank(s[1..]);
    }
  }

  lemma {:induction false} RemoveSpacesOfSpaceless(s: string)
    requires forall i :: 0 <= i < |s| ==> !IsSpace(s[i])
    ensures RemoveSpaces(s) == s
  {
    if s != [] {
      RemoveSpacesOfSpaceless(s[1..]);
      assert s == [s[0]] + s[1..];
    }
  }

  lemma {:induction false} NarrowWidthAppend(a: string, b: string)
    ensures NarrowWidth(a + b) == NarrowWidth(a) + NarrowWidth(b)
  {
    if a == [] {
      assert a + b == b;
    } else {
      assert (a + b)[1..] == a[1..] + b;
      NarrowWidthAppend(a[1..], b);
    }
  }

  lemma {:induction false} LowerCaseAppend(a: string, b: string)
    ensures LowerCase(a + b) == LowerCase(a) + LowerCase(b)
  {
    if a == [] {
      assert a + b == b;
    } else {
      assert (a + b)[1..] == a[1..] + b;
      LowerCaseAppend(a[1..], b);
    }
  }

  /** The key of a concatenation is the concatenation of the keys. */
  lemma KeyAppend(a: string, b: string)
    ensures NormalizeKey(Some(a + b)) == NormalizeKey(Some(a)) + NormalizeKey(Some(b))
  {
    RemoveSpacesAppend(a, b);
    var ra, rb := RemoveSpaces(a), RemoveSpaces(b);
    NarrowWidthAppend(ra, rb);
    LowerCaseAppend(NarrowWidth(ra), NarrowWidth(rb));
  }

  /** A key is its own key: `normalizeKey` is idempotent. */
  lemma KeyOfKey(s: string)
    requires IsKey(s)
    ensures NormalizeKey(Some(s)) == s
  {
    RemoveSpacesOfSpaceless(s);
    assert NarrowWidth(s) == s;
    assert LowerCase(s) == s;
  }

  lemma KeyIdempotent(str: Option<string>)
    ensures NormalizeKey(Some(NormalizeKey(str))) == NormalizeKey(str)
  {
    KeyOfKey(NormalizeKey(str));
  }

  lemma KeyOfBlank(s: string)
    requires Blank(s)
    ensures NormalizeKey(Some(s)) == ""
  {
    RemoveSpacesOfBlank(s);
  }

  /** Inserting a whitespace character anywhere leaves the key unchanged. */
  lemma KeyIgnoresSpace(a: string, c: char, b: string)
    requires IsSpace(c)
    ensures NormalizeKey(Some(a + [c] + b)) == NormalizeKey(Some(a + b))
  {
    var ka, kc, kb := NormalizeKey(Some(a)), NormalizeKey(Some([c])), NormalizeKey(Some(b));
    KeyOfBlank([c]);
    assert kc == [];
    KeyAppend(a, [c]);
    assert NormalizeKey(Some(a + [c])) == ka;
    KeyAppend(a + [c], b);
    KeyAppend(a, b);
  }

  /** The key of a one-character string. */
  lemma KeyOfChar(c: char)
    ensures NormalizeKey(Some([c])) == if IsSpace(c) then [] else [LowerChar(Narrow(c))]
  {
  }

  /** Replacing one character by another with the same one-character key leaves the key unchanged. */
  lemma KeyReplaceChar(a: string, c: char, d: char, b: string)
    requires NormalizeKey(Some([c])) == NormalizeKey(Some([d]))
    ensures NormalizeKey(Some(a + [c] + b)) == NormalizeKey(Some(a + [d] + b))
  {
    KeyAppend(a, [c]);
    KeyAppend(a + [c], b);
    KeyAppend(a, [d]);
    KeyAppend(a + [d], b);
  }

  /** Writing a letter or digit in full width leaves the key unchanged. */
  lemma KeyIgnoresWidth(a: string, c: char, b: string)
    requires IsWideAlnum(c)
    ensures NormalizeKey(Some(a + [c] + b)) == NormalizeKey(Some(a + [Narrow(c)] + b))
  {
    KeyOfChar(c);
    KeyOfChar(Narrow(c));
    KeyReplaceChar(a, c, Narrow(c), b);
  }

  /** Writing an ASCII letter in upper case leaves the key unchanged. */
  lemma KeyIgnoresCase(a: string, c: char, b: string)
    requires IsAsciiUpper(c)
    ensures NormalizeKey(Some(a + [c] + b)) == NormalizeKey(Some(a + [LowerChar(c)] + b))
  {
    KeyOfChar(c);
    KeyOfChar(LowerChar(c));
    KeyReplaceChar(a, c, LowerChar(c), b);
  }

  lemma KeyOfBlankAround(lead: string, s: string, trail: string)
    requires Blank(lead) && Blank(trail)
    ensures NormalizeKey(Some(lead + s + trail)) == NormalizeKey(Some(s))
  {
    KeyOfBlank(lead);
    KeyOfBlank(trail);
    KeyAppend(lead, s);
    KeyAppend(lead + s, trail);
  }

  /** A string is its trimmed form with blank text on either side. */
  lemma TrimParts(s: string) returns (lead: string, trail: string)
    ensures Blank(lead) && Blank(trail)
    ensures s == lead + TrimEnd(TrimStart(s)) + trail
  {
    var t := TrimStart(s);
    var u := TrimEnd(t);
    lead := s[..|s| - |t|];
    trail := t[|u|..];
    assert t == u + trail by {
      SplitAt(t, |u|);
    }
    assert s == lead + t by {
      SplitAt(s, |s| - |t|);
    }
    AppendAssoc(lead, u, trail);
  }

  lemma AppendAssoc(a: string, b: string, c: string)
    ensures a + (b + c) == a + b + c
  {
  }

  lemma SplitAt(s: string, k: nat)
    requires k <= |s|
    ensures s == s[..k] + s[k..]
  {
  }

  /** Trimming first does not change the key: `normalizeKey(normalize(x)) == normalizeKey(x)`. */
  lemma KeyOfNormalized(str: Option<string>)
    ensures NormalizeKey(Some(Normalize(str))) == NormalizeKey(str)
  {
    var s := OrEmpty(str);
    var lead, trail := TrimParts(s);
    assert Normalize(str) == TrimEnd(TrimStart(s));
    KeyOfBlankAround(lead, TrimEnd(TrimStart(s)), trail);
  }

  /** `normalize` is idempotent. */
  lemma NormalizeIdempotent(str: Option<string>)
    ensures Normalize(Some(Normalize(str))) == Normalize(str)
  {
    var r := Normalize(str);
    if r != "" {
      assert TrimStart(r) == r;
      assert TrimEnd(r) == r;
    }
  }

  // Steps of the worked examples below.

  /** The three stages of `normalizeKey` on a present value. */
  lemma KeyStages(s: string)
    ensures NormalizeKey(Some(s)) == LowerCase(NarrowWidth(RemoveSpaces(s)))
  {
  }

  /** `s` with a space before each character and one at the end. */
  function Spaced(s: string): string {
    if s == [] then " " else [' ', s[0]] + Spaced(s[1..])
  }

  lemma {:induction false} RemoveSpacesOfSpaced(s: string)
    requires forall i :: 0 <= i < |s| ==> !IsSpace(s[i])
    ensures RemoveSpaces(Spaced(s)) == s
  {
    if s != [] {
      var t := Spaced(s[1..]);
      assert Spaced(s) == [' '] + ([s[0]] + t);
      RemoveSpacesAppend([' '], [s[0]] + t);
      RemoveSpacesAppend([s[0]], t);
      RemoveSpacesOfSpaced(s[1..]);
      assert s == [s[0]] + s[1..];
    } else {
      assert RemoveSpaces(" ") == [];
    }
  }

  /** Narrowing leaves a string with no full-width letter or digit as it is. */
  lemma NarrowWidthOfNarrow(s: string)
    requires forall i :: 0 <= i < |s| ==> !IsWideAlnum(s[i])
    ensures NarrowWidth(s) == s
  {
  }

  lemma WideSpaceRemoved()
    ensures RemoveSpaces("\U{FF21}\U{FF22}\U{FF23}\U{3000}\U{FF11}\U{FF12}\U{FF13}")
         == "\U{FF21}\U{FF22}\U{FF23}\U{FF11}\U{FF12}\U{FF13}"
  {
  }

  lemma WideNarrowed()
    ensures NarrowWidth("\U{FF21}\U{FF22}\U{FF23}\U{FF11}\U{FF12}\U{FF13}") == "ABC123"
  {
    assert Narrow('\U{FF21}') == 'A' && Narrow('\U{FF22}') == 'B' && Narrow('\U{FF23}') == 'C';
    assert Narrow('\U{FF11}') == '1' && Narrow('\U{FF12}') == '2' && Narrow('\U{FF13}') == '3';
  }

  lemma WideLowered()
    ensures LowerCase("ABC123") == "abc123"
  {
  }

  lemma WideExample()
    ensures NormalizeKey(Some("\U{FF21}\U{FF22}\U{FF23}\U{3000}\U{FF11}\U{FF12}\U{FF13}")) == "abc123"
  {
    var wide := "\U{FF21}\U{FF22}\U{FF23}\U{3000}\U{FF11}\U{FF12}\U{FF13}";
    calc {
      NormalizeKey(Some(wide));
      { KeyStages(wide); }
      LowerCase(NarrowWidth(RemoveSpaces(wide)));
      { WideSpaceRemoved(); }
      LowerCase(NarrowWidth("\U{FF21}\U{FF22}\U{FF23}\U{FF11}\U{FF12}\U{FF13}"));
      { WideNarrowed(); }
      LowerCase("ABC123");
      { WideLowered(); }
      "abc123";
    }
  }

  lemma SpacedCons(c: char, s: string)
    ensures Spaced([c] + s) == [' ', c] + Spaced(s)
  {
    assert ([c] + s)[1..] == s;
  }

  lemma SpacedLiteral()
    ensures Spaced("AbC123") == " A b C 1 2 3 "
  {
    SpacedCons('3', "");
    assert Spaced("3") == " 3 ";
    SpacedCons('2', "3");
    assert Spaced("23") == " 2 3 ";
    SpacedCons('1', "23");
    assert Spaced("123") == " 1 2 3 ";
    SpacedCons('C', "123");
    assert Spaced("C123") == " C 1 2 3 ";
    SpacedCons('b', "C123");
    assert Spaced("bC123") == " b C 1 2 3 ";
    SpacedCons('A', "bC123");
  }

  lemma SpacedLowered()
    ensures LowerCase("AbC123") == "abc123"
  {
  }

  lemma SpacedExample()
    ensures NormalizeKey(Some(" A b C 1 2 3 ")) == "abc123"
  {
    SpacedLiteral();
    RemoveSpacesOfSpaced("AbC123");
    NarrowWidthOfNarrow("AbC123");
    SpacedLowered();
    KeyStages(" A b C 1 2 3 ");
  }

  /** Width, whitespace and case do not matter: "ＡＢＣ　１２３", "abc123" and
      " A b C 1 2 3 " share one key. */
  lemma KeyExamples()
    ensures NormalizeKey(Some("\U{FF21}\U{FF22}\U{FF23}\U{3000}\U{FF11}\U{FF12}\U{FF13}")) == "abc123"
    ensures NormalizeKey(Some("abc123")) == "abc123"
    ensures NormalizeKey(Some(" A b C 1 2 3 ")) == "abc123"
  {
    WideExample();
    KeyOfKey("abc123");
    SpacedExample();
  }
}
