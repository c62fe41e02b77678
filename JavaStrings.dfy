/**
 * The few `java.lang.String` operations the bot relies on, over `string`
 * (a sequence of characters): `startsWith`, `endsWith`, `contains`,
 * `toLowerCase`, `trim`, `String.join` and `replace`.
 */
module JavaStrings {

  predicate StartsWith(s: string, prefix: string) {
    |prefix| <= |s| && s[..|prefix|] == prefix
  }

  predicate EndsWith(s: string, suffix: string) {
    |suffix| <= |s| && s[|s| - |suffix|..] == suffix
  }

  /** `p` occurs in `s` starting at index `i`. */
  predicate OccursAt(s: string, p: string, i: int) {
    0 <= i && i + |p| <= |s| && s[i..i + |p|] == p
  }

  /** `s.contains(p)`, scanning start positions from left to right. */
  predicate Contains(s: string, p: string)
    decreases |s|
  {
    StartsWith(s, p) || (s != [] && Contains(s[1..], p))
  }

  /** The scan finds `p` exactly when `p` occurs somewhere in `s`. */
  lemma {:induction false} ContainsIff(s: string, p: string)
    ensures Contains(s, p) <==> exists i :: OccursAt(s, p, i)
    decreases |s|
  {
    if StartsWith(s, p) {
      assert OccursAt(s, p, 0);
    } else if s != [] {
      ContainsIff(s[1..], p);
      forall i | 1 <= i && i + |p| <= |s|
        ensures OccursAt(s, p, i) <==> OccursAt(s[1..], p, i - 1)
      {
        assert s[1..][i - 1..i - 1 + |p|] == s[i..i + |p|];
      }
      if Contains(s[1..], p) {
        var i :| OccursAt(s[1..], p, i);
        assert OccursAt(s, p, i + 1);
      }
    }
  }

  /** Text around an occurrence does not hide it. */
  lemma ContainsInContext(a: string, s: string, b: string, p: string)
    requires Contains(s, p)
    ensures Contains(a + s + b, p)
  {
    ContainsIff(s, p);
    var i :| OccursAt(s, p, i);
    assert (a + s + b)[|a| + i..|a| + i + |p|] == s[i..i + |p|];
    assert OccursAt(a + s + b, p, |a| + i);
    ContainsIff(a + s + b, p);
  }

  /** `Character.toLowerCase` on ASCII letters; other characters are kept. */
  function LowerChar(c: char): char {
    if 'A' <= c <= 'Z' then (c as int + 32) as char else c
  }

  function UpperChar(c: char): char {
    if 'a' <= c <= 'z' then (c as int - 32) as char else c
  }

  /** `s.toLowerCase()`, character by character. */
  function ToLower(s: string): string {
    seq(|s|, i requires 0 <= i < |s| => LowerChar(s[i]))
  }

  function ToUpper(s: string): string {
    seq(|s|, i requires 0 <= i < |s| => UpperChar(s[i]))
  }

  lemma ToLowerConcat(a: string, b: string)
    ensures ToLower(a + b) == ToLower(a) + ToLower(b)
  {
  }

  /** Upper-casing first does not change the lower-cased text. */
  lemma ToLowerOfUpper(s: string)
    ensures ToLower(ToUpper(s)) == ToLower(s)
  {
  }

  /** The characters `String.trim` removes: every code point up to U+0020. */
  predicate IsTrimmable(c: char) {
    c <= ' '
  }

  /** The left half of `trim`: leading trimmable characters removed. */
  function TrimStart(s: string): string {
    if s != [] && IsTrimmable(s[0]) then TrimStart(s[1..]) else s
  }

  /** The right half of `trim`: trailing trimmable characters removed. */
  function TrimEnd(s: string): string {
    if s != [] && IsTrimmable(s[|s| - 1]) then TrimEnd(s[..|s| - 1]) else s
  }

  /** `TrimStart` leaves a suffix that does not start with a trimmable character, and removes only trimmable ones. */
  lemma {:induction false} TrimStartShape(s: string)
    ensures var r := TrimStart(s);
            |r| <= |s| && r == s[|s| - |r|..] &&
            (forall i :: 0 <= i < |s| - |r| ==> IsTrimmable(s[i])) &&
            (r != [] ==> !IsTrimmable(r[0]))
    decreases |s|
  {
    if s != [] && IsTrimmable(s[0]) {
      TrimStartShape(s[1..]);
      var r := TrimStart(s[1..]);
      assert s[1..][|s| - 1 - |r|..] == s[|s| - |r|..];
      forall i | 0 < i < |s| - |r| ensures IsTrimmable(s[i]) {
        assert s[i] == s[1..][i - 1];
      }
    }
  }

  /** `TrimEnd` leaves a prefix that does not end with a trimmable character, and removes only trimmable ones. */
  lemma {:induction false} TrimEndShape(s: string)
    ensures var r := TrimEnd(s);
            |r| <= |s| && r == s[..|r|] &&
            (forall i :: |r| <= i < |s| ==> IsTrimmable(s[i])) &&
            (r != [] ==> !IsTrimmable(r[|r| - 1]))
    decreases |s|
  {
    if s != [] && IsTrimmable(s[|s| - 1]) {
      TrimEndShape(s[..|s| - 1]);
      var r := TrimEnd(s[..|s| - 1]);
      assert s[..|s| - 1][..|r|] == s[..|r|];
      forall i | |r| <= i < |s| - 1 ensures IsTrimmable(s[i]) {
        assert s[i] == s[..|s| - 1][i];
      }
    }
  }

  /** `s.trim()`: trimmable characters stripped from both ends. */
  function Trim(s: string): string {
    TrimEnd(TrimStart(s))
  }

  /**
   * What `trim` leaves: a slice of `s` (a prefix of what is left after the
   * leading characters go) that neither starts nor ends with a trimmable
   * character; it is empty exactly when every character of `s` is trimmable.
   */
  lemma TrimShape(s: string)
    ensures var r := Trim(s);
            |r| <= |s| &&
            |r| <= |TrimStart(s)| && r == TrimStart(s)[..|r|] &&
            (r == [] <==> forall i :: 0 <= i < |s| ==> IsTrimmable(s[i])) &&
            (r != [] ==> !IsTrimmable(r[0]) && !IsTrimmable(r[|r| - 1]))
  {
    var t := TrimStart(s);
    var r := TrimEnd(t);
    TrimStartShape(s);
    TrimEndShape(t);
    if r == [] {
      // `TrimEnd` removed all of `t`, which cannot start with a trimmable character
      assert t == [];
    } else {
      assert r[0] == s[|s| - |t|];
    }
  }

  /** Trimming an already trimmed text changes nothing. */
  lemma TrimIdempotent(s: string)
    ensures Trim(Trim(s)) == Trim(s)
  {
    var r := Trim(s);
    TrimShape(s);
    if r != [] {
      assert TrimStart(r) == r;
      assert TrimEnd(r) == r;
    }
  }

  /** `String.join(sep, parts)`. */
  function Join(sep: string, parts: seq<string>): string
    decreases |parts|
  {
    if |parts| == 0 then ""
    else if |parts| == 1 then parts[0]
    else parts[0] + sep + Join(sep, parts[1..])
  }

  /** Joining a split list gives the two joined halves around one separator. */
  lemma {:induction false} JoinAppend(sep: string, a: seq<string>, b: seq<string>)
    requires a != [] && b != []
    ensures Join(sep, a + b) == Join(sep, a) + sep + Join(sep, b)
    decreases |a|
  {
    if |a| == 1 {
      assert (a + b)[1..] == b;
    } else {
      assert (a + b)[1..] == a[1..] + b;
      JoinAppend(sep, a[1..], b);
    }
  }

  /**
   * `s.replace(target, replacement)`: the leftmost occurrences of `target`
   * are replaced, scanning left to right without overlaps.
   */
  function ReplaceAll(s: string, target: string, replacement: string): string
    requires target != []
    decreases |s|
  {
    if StartsWith(s, target) then replacement + ReplaceAll(s[|target|..], target, replacement)
    else if s == [] then []
    else [s[0]] + ReplaceAll(s[1..], target, replacement)
  }

  /** A text without the target comes back unchanged. */
  lemma {:induction false} ReplaceAllAbsent(s: string, target: string, replacement: string)
    requires target != []
    requires !Contains(s, target)
    ensures ReplaceAll(s, target, replacement) == s
    decreases |s|
  {
    if s != [] {
      ReplaceAllAbsent(s[1..], target, replacement);
      assert [s[0]] + s[1..] == s;
    }
  }

  predicate Disjoint(p: string, q: string) {
    forall i, j :: 0 <= i < |p| && 0 <= j < |q| ==> p[i] != q[j]
  }

  /**
   * A result of the replacement can only begin with a text made of
   * characters foreign to the replacement if the input began with it.
   */
  lemma {:induction false} ReplaceAllPrefix(s: string, target: string, replacement: string, p: string)
    requires target != [] && replacement != []
    requires Disjoint(p, replacement)
    requires StartsWith(ReplaceAll(s, target, replacement), p)
    ensures StartsWith(s, p)
    decreases |s|
  {
    assert StartsWith(s, target) ==> ReplaceAll(s, target, replacement)[0] == replacement[0];
    if p != [] {
      if StartsWith(s, target) {
        assert false;
      } else {
        var rest := ReplaceAll(s[1..], target, replacement);
        assert ReplaceAll(s, target, replacement)[1..] == rest;
        ReplaceAllPrefix(s[1..], target, replacement, p[1..]);
        assert s[..|p|] == [s[0]] + s[1..][..|p| - 1];
      }
    }
  }

  /** `p` occurs nowhere in `s`. */
  ghost predicate Absent(s: string, p: string) {
    forall i :: !OccursAt(s, p, i)
  }

  /**
   * When the replacement shares no character with the target, no
   * occurrence of the target is left behind.
   */
  lemma ReplaceAllRemovesTarget(s: string, target: string, replacement: string)
    requires target != [] && replacement != []
    requires Disjoint(target, replacement)
    ensures !Contains(ReplaceAll(s, target, replacement), target)
  {
    ReplaceAllLeavesNoTarget(s, target, replacement);
    ContainsIff(ReplaceAll(s, target, replacement), target);
  }

  lemma {:induction false} ReplaceAllLeavesNoTarget(s: string, target: string, replacement: string)
    requires target != [] && replacement != []
    requires Disjoint(target, replacement)
    ensures Absent(ReplaceAll(s, target, replacement), target)
    decreases |s|
  {
    if StartsWith(s, target) {
      ReplaceAllLeavesNoTarget(s[|target|..], target, replacement);
      NoTargetAfterReplacement(replacement, ReplaceAll(s[|target|..], target, replacement), target);
    } else if s != [] {
      ReplaceAllLeavesNoTarget(s[1..], target, replacement);
      NoTargetAfterCopiedChar(s, target, replacement);
    }
  }

  /** A text starting with the replacement has an occurrence of the target only in its rest. */
  lemma NoTargetAfterReplacement(replacement: string, rest: string, target: string)
    requires target != [] && Disjoint(target, replacement)
    requires Absent(rest, target)
    ensures Absent(replacement + rest, target)
  {
    var r := replacement + rest;
    forall i | 0 <= i && i + |target| <= |r| ensures !OccursAt(r, target, i) {
      if i >= |replacement| {
        assert r[i..i + |target|] == rest[i - |replacement|..i - |replacement| + |target|];
        assert !OccursAt(rest, target, i - |replacement|);
      } else {
        assert r[i..i + |target|][0] == replacement[i] != target[0];
      }
    }
  }

  /** Copying a character that does not start an occurrence leaves none behind. */
  lemma NoTargetAfterCopiedChar(s: string, target: string, replacement: string)
    requires target != [] && replacement != [] && Disjoint(target, replacement)
    requires s != [] && !StartsWith(s, target)
    requires Absent(ReplaceAll(s[1..], target, replacement), target)
    ensures Absent(ReplaceAll(s, target, replacement), target)
  {
    var r := ReplaceAll(s, target, replacement);
    var rest := ReplaceAll(s[1..], target, replacement);
    assert r == [s[0]] + rest;
    NoTargetAtCopiedChar(s, target, replacement);
    forall i | 1 <= i && i + |target| <= |r| ensures !OccursAt(r, target, i) {
      assert r[i..i + |target|] == rest[i - 1..i - 1 + |target|];
      assert !OccursAt(rest, target, i - 1);
    }
  }

  /** No occurrence can begin at a copied character. */
  lemma NoTargetAtCopiedChar(s: string, target: string, replacement: string)
    requires target != [] && replacement != [] && Disjoint(target, replacement)
    requires s != [] && !StartsWith(s, target)
    ensures !OccursAt(ReplaceAll(s, target, replacement), target, 0)
  {
    var r := ReplaceAll(s, target, replacement);
    var rest := ReplaceAll(s[1..], target, replacement);
    assert r == [s[0]] + rest;
    if StartsWith(rest, target[1..]) {
      ReplaceAllPrefix(s[1..], target, replacement, target[1..]);
      assert s[..|target|] == [s[0]] + s[1..][..|target| - 1];
    } else if |target| <= |r| {
      assert r[1..|target|] == rest[..|target| - 1];
    }
  }
}
