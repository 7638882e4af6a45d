/** The string built-ins the shop's search relies on: `toLowerCase`, `trim` and `includes`. */
module Text {

  /** The characters `String.prototype.trim` strips: ECMAScript WhiteSpace (tab, vertical tab,
      form feed, the byte order mark and every Unicode space separator) and LineTerminator. */
  predicate IsSpace(c: char) {
    var n := c as int;
    n == 0x09 || n == 0x0A || n == 0x0B || n == 0x0C || n == 0x0D || n == 0x20 ||
    n == 0xA0 || n == 0x1680 || (0x2000 <= n <= 0x200A) || n == 0x2028 || n == 0x2029 ||
    n == 0x202F || n == 0x205F || n == 0x3000 || n == 0xFEFF
  }

  /** A string made of whitespace only (the empty string included). */
  predicate IsBlank(s: string) {
    forall k :: 0 <= k < |s| ==> IsSpace(s[k])
  }

  predicate IsUpper(c: char) {
    'A' <= c <= 'Z'
  }

  /** Lower-cases an ASCII capital and leaves every other character alone. */
  function LowerChar(c: char): char {
    if IsUpper(c) then (c as int + 32) as char else c
  }

  /** `toLowerCase`, restricted to the ASCII case mapping. */
  function ToLower(s: string): (r: string)
    ensures |r| == |s|
    ensures forall k :: 0 <= k < |r| ==> !IsUpper(r[k])
    ensures forall k :: 0 <= k < |r| ==> IsSpace(r[k]) == IsSpace(s[k])
    ensures forall k :: 0 <= k < |s| && !IsUpper(s[k]) ==> r[k] == s[k]
    ensures forall k :: 0 <= k < |s| && IsUpper(s[k]) ==> r[k] as int == s[k] as int + 32
  {
    seq(|s|, k requires 0 <= k < |s| => LowerChar(s[k]))
  }

  /** Lower-casing neither creates nor removes whitespace. */
  lemma LowerKeepsBlank(s: string)
    ensures IsBlank(ToLower(s)) == IsBlank(s)
  {
  }

  /** Lower-casing twice is lower-casing once. */
  lemma LowerIdempotent(s: string)
    ensures ToLower(ToLower(s)) == ToLower(s)
  {
  }

  /** Drops leading whitespace: the result is a suffix of `s`, starts with a non-space
      character if it is not empty, and only whitespace was dropped. */
  function TrimStart(s: string): (r: string)
    ensures |r| <= |s| && r == s[|s| - |r|..]
    ensures r != [] ==> !IsSpace(r[0])
    ensures forall k :: 0 <= k < |s| - |r| ==> IsSpace(s[k])
  {
    if s != [] && IsSpace(s[0]) then TrimStart(s[1..]) else s
  }

  /** Drops trailing whitespace: the result is a prefix of `s`, ends with a non-space
      character if it is not empty, and only whitespace was dropped. */
  function TrimEnd(s: string): (r: string)
    ensures |r| <= |s| && r == s[..|r|]
    ensures r != [] ==> !IsSpace(r[|r| - 1])
    ensures forall k :: |r| <= k < |s| ==> IsSpace(s[k])
  {
    if s != [] && IsSpace(s[|s| - 1]) then TrimEnd(s[..|s| - 1]) else s
  }

  /** `needle` occurs in `s` starting at index `i`. */
  predicate OccursAt(s: string, needle: string, i: int) {
    0 <= i && i + |needle| <= |s| && s[i..i + |needle|] == needle
  }

  /** Only whitespace lies before index `i` and from index `j` on. */
  predicate BlankOutside(s: string, i: int, j: int) {
    (forall k :: 0 <= k < i && k < |s| ==> IsSpace(s[k])) &&
    (forall k :: j <= k < |s| && 0 <= k ==> IsSpace(s[k]))
  }

  /** Neither the first nor the last character of `s` is whitespace. */
  predicate SpaceFreeEnds(s: string) {
    s != [] ==> !IsSpace(s[0]) && !IsSpace(s[|s| - 1])
  }

  /** `trim`: the result is `s` with exactly its leading and trailing whitespace removed: a
      contiguous piece of `s`, only whitespace before and after it, and no whitespace at either
      of its ends. It is empty exactly when `s` is blank. */
  function Trim(s: string): (r: string)
    ensures |r| <= |s|
    ensures exists i :: OccursAt(s, r, i) && BlankOutside(s, i, i + |r|)
    ensures SpaceFreeEnds(r)
    ensures r == [] <==> IsBlank(s)
  {
    var r := TrimEnd(TrimStart(s));
    TrimPlacement(s);
    TrimEnds(s);
    assert OccursAt(s, r, |s| - |TrimStart(s)|);
    r
  }

  /** Trimming both ends leaves the piece of `s` that starts where the leading whitespace ends,
      with only whitespace after it. */
  lemma TrimPlacement(s: string)
    ensures var t := TrimStart(s); var r := TrimEnd(t); var i := |s| - |t|;
      OccursAt(s, r, i) && BlankOutside(s, i, i + |r|)
  {
    var t := TrimStart(s);
    var r := TrimEnd(t);
    var i := |s| - |t|;
    assert r == s[i..i + |r|];
    assert OccursAt(s, r, i);
    forall k | i + |r| <= k < |s|
      ensures IsSpace(s[k])
    {
      assert s[k] == t[k - i];
    }
  }

  /** Trimming both ends leaves no whitespace at either end, and leaves nothing exactly when
      `s` is blank. */
  lemma TrimEnds(s: string)
    ensures var r := TrimEnd(TrimStart(s));
      SpaceFreeEnds(r) && (r == [] <==> IsBlank(s))
  {
    var t := TrimStart(s);
    var r := TrimEnd(t);
    var i := |s| - |t|;
    TrimPlacement(s);
    if r != [] {
      assert r[0] == t[0] == s[i];
      assert !IsBlank(s);
    } else {
      assert forall k :: 0 <= k < |s| ==> IsSpace(s[k]);
    }
  }

  /** `includes`: `needle` is a prefix of `s` or occurs in the rest of `s`. */
  predicate Contains(s: string, needle: string)
    ensures needle == [] ==> Contains(s, needle)
    ensures Contains(s, needle) ==> |needle| <= |s|
    decreases |s|
  {
    (|needle| <= |s| && s[..|needle|] == needle) || (s != [] && Contains(s[1..], needle))
  }

  /** An occurrence at index `i` makes `Contains` hold. */
  lemma {:induction false} OccursContains(s: string, needle: string, i: nat)
    requires OccursAt(s, needle, i)
    ensures Contains(s, needle)
    decreases i
  {
    if i > 0 {
      assert s[1..][i - 1..i - 1 + |needle|] == s[i..i + |needle|];
      OccursContains(s[1..], needle, i - 1);
    }
  }

  /** When `Contains` holds, there is an index at which `needle` occurs. */
  lemma {:induction false} ContainsOccurs(s: string, needle: string) returns (i: nat)
    requires Contains(s, needle)
    ensures OccursAt(s, needle, i)
    decreases |s|
  {
    if |needle| <= |s| && s[..|needle|] == needle {
      i := 0;
    } else {
      var j := ContainsOccurs(s[1..], needle);
      assert s[1..][j..j + |needle|] == s[j + 1..j + 1 + |needle|];
      i := j + 1;
    }
  }

  /** `Contains` holds exactly when `needle` occurs at some index of `s`. */
  lemma ContainsIff(s: string, needle: string)
    ensures Contains(s, needle) <==> exists i :: OccursAt(s, needle, i)
  {
    if Contains(s, needle) {
      var i := ContainsOccurs(s, needle);
    }
    if exists i :: OccursAt(s, needle, i) {
      var i :| OccursAt(s, needle, i);
      OccursContains(s, needle, i);
    }
  }

  /** `needle` equals the lower-cased piece of `text` that starts at index `i`. */
  predicate OccursFolded(text: string, needle: string, i: int) {
    0 <= i && i + |needle| <= |text| && ToLower(text[i..i + |needle|]) == needle
  }

  /** The lower-cased text includes `needle` exactly when some piece of the original text
      lower-cases to `needle`. */
  lemma LowerContainsIff(text: string, needle: string)
    ensures Contains(ToLower(text), needle) <==> exists i :: OccursFolded(text, needle, i)
  {
    var lower := ToLower(text);
    ContainsIff(lower, needle);
    forall i | 0 <= i && i + |needle| <= |text|
      ensures OccursAt(lower, needle, i) <==> OccursFolded(text, needle, i)
    {
      assert lower[i..i + |needle|] == ToLower(text[i..i + |needle|]);
    }
  }
}
