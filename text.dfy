/** The handful of Python `str` operations the request-gating and
    validation code relies on: `in` (substring), `startswith`, `strip()`
    and `split(",")[0]`. Strings are sequences of code points. */
module Text {

  /** `s.startswith(prefix)`. */
  predicate StartsWith(s: string, prefix: string)
  {
    |prefix| <= |s| && s[..|prefix|] == prefix
  }

  /** `sub in s` for strings: `sub` occurs somewhere in `s`. */
  predicate Contains(s: string, sub: string)
  {
    StartsWith(s, sub) || (s != [] && Contains(s[1..], sub))
  }

  /** `Contains` means an occurrence at some position. */
  lemma {:induction false} ContainsAt(s: string, sub: string, i: nat)
    requires i + |sub| <= |s| && s[i..i + |sub|] == sub
    ensures Contains(s, sub)
  {
    if i > 0 {
      assert s[1..][i - 1..i - 1 + |sub|] == s[i..i + |sub|];
      ContainsAt(s[1..], sub, i - 1);
    }
  }

  /** A string that starts with a prefix contains everything the prefix contains. */
  lemma {:induction false} ContainsThroughPrefix(s: string, prefix: string, sub: string)
    requires StartsWith(s, prefix) && Contains(prefix, sub)
    ensures Contains(s, sub)
  {
    if !StartsWith(prefix, sub) {
      ContainsThroughPrefix(s[1..], prefix[1..], sub);
    }
  }

  /** The characters Python's `str.isspace()` accepts; `str.strip()` with no
      argument removes exactly these from both ends. */
  predicate IsSpace(c: char)
  {
    || c == ' ' || ('\t' <= c <= '\r') || ('\U{1C}' <= c <= '\U{1F}')
    || c == '\U{85}' || c == '\U{A0}' || c == '\U{1680}'
    || ('\U{2000}' <= c <= '\U{200A}')
    || c == '\U{2028}' || c == '\U{2029}' || c == '\U{202F}' || c == '\U{205F}'
    || c == '\U{3000}'
  }

  predicate AllSpace(s: string)
  {
    forall i | 0 <= i < |s| :: IsSpace(s[i])
  }

  /** `s.lstrip()`: the suffix of `s` left after dropping leading whitespace. */
  function TrimStart(s: string): (r: string)
    ensures |r| <= |s| && r == s[|s| - |r|..]
    ensures AllSpace(s[..|s| - |r|])
    ensures r == [] || !IsSpace(r[0])
  {
    if s != [] && IsSpace(s[0]) then TrimStart(s[1..]) else s
  }

  /** `s.rstrip()`: the prefix of `s` left after dropping trailing whitespace. */
  function TrimEnd(s: string): (r: string)
    ensures |r| <= |s| && r == s[..|r|]
    ensures AllSpace(s[|r|..])
    ensures r == [] || !IsSpace(r[|r| - 1])
  {
    if s != [] && IsSpace(s[|s| - 1]) then
      var r := TrimEnd(s[..|s| - 1]);
      assert AllSpace(s[|r|..]) by {
        forall i | 0 <= i < |s| - |r| ensures IsSpace(s[|r|..][i]) {
          if i < |s| - 1 - |r| {
            assert s[|r|..][i] == s[..|s| - 1][|r|..][i];
          }
        }
      }
      r
    else s
  }

  /** `s.strip()`: `s` without leading and trailing whitespace. What it
      keeps is the piece of `s` after `StripLead(s)` characters, and it
      neither starts nor ends with whitespace. */
  function Strip(s: string): (r: string)
    ensures StripLead(s) + |r| <= |s| && r == s[StripLead(s)..StripLead(s) + |r|]
    ensures r != [] ==> !IsSpace(r[0]) && !IsSpace(r[|r| - 1])
  {
    TrimEnd(TrimStart(s))
  }

  /** How many leading characters `strip()` removes. */
  function StripLead(s: string): nat
  {
    |s| - |TrimStart(s)|
  }

  /** Everything `strip()` removes, at either end, is whitespace. */
  lemma StripRemovesOnlySpace(s: string)
    ensures AllSpace(s[..StripLead(s)])
    ensures AllSpace(s[StripLead(s) + |Strip(s)|..])
  {
    var t := TrimStart(s);
    assert s[StripLead(s) + |Strip(s)|..] == t[|Strip(s)|..];
  }

  /** `strip()` gives the empty string exactly when `s` is blank. */
  lemma StripEmptyIffBlank(s: string)
    ensures Strip(s) == [] <==> AllSpace(s)
  {
    var t := TrimStart(s);
    var lead := StripLead(s);
    if Strip(s) == [] {
      StripRemovesOnlySpace(s);
      assert t == [];
      forall i | 0 <= i < |s| ensures IsSpace(s[i]) {
        assert s[i] == s[..lead][i];
      }
    } else {
      assert !IsSpace(s[lead]);
    }
  }

  /** `s.split(",")[0]`: everything before the first comma, or all of `s`
      when it has none. */
  function FirstField(s: string): (r: string)
    ensures |r| <= |s| && r == s[..|r|]
    ensures ',' !in r
    ensures |r| == |s| || s[|r|] == ','
  {
    if s == [] || s[0] == ',' then [] else [s[0]] + FirstField(s[1..])
  }
}
