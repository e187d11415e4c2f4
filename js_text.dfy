/**
 * The JavaScript string built-ins the application relies on, stated over
 * `string` (a sequence of Unicode scalar values): `trim`, `trimStart`,
 * `startsWith`, `split` with a string separator, `slice(0, n)`, `padStart`,
 * `String(n)` for naturals, ASCII case folding and `URLSearchParams.get`.
 */
module JsText {
  import opened Wrappers

  // ---------------------------------------------------------------- white space

  /**
   * The characters ECMAScript counts as WhiteSpace or LineTerminator: exactly the
   * set removed by `String.prototype.trim` and matched by the regex class `\s`.
   */
  predicate IsSpace(c: char) {
    c == '\t' || c == '\n' || c == '\U{000B}' || c == '\U{000C}' || c == '\r' || c == ' '
    || c == '\U{00A0}' || c == '\U{1680}' || ('\U{2000}' <= c <= '\U{200A}')
    || c == '\U{2028}' || c == '\U{2029}' || c == '\U{202F}' || c == '\U{205F}'
    || c == '\U{3000}' || c == '\U{FEFF}'
  }

  /** `s` holds white space only (the falsy result of `s.trim()`). */
  predicate IsBlank(s: string) {
    forall i :: 0 <= i < |s| ==> IsSpace(s[i])
  }

  /** `s.trimStart()`, also the effect of a leading `\s*` in a regex replace. */
  function TrimStart(s: string): (r: string)
    ensures |r| <= |s|
    ensures r == [] || !IsSpace(r[0])
    decreases |s|
  {
    if s != [] && IsSpace(s[0]) then TrimStart(s[1..]) else s
  }

  /** `trimStart` keeps a suffix of `s` and removes only white space before it. */
  lemma {:induction false} TrimStartSpec(s: string)
    ensures TrimStart(s) == s[|s| - |TrimStart(s)|..]
    ensures IsBlank(s[..|s| - |TrimStart(s)|])
    decreases |s|
  {
    if s != [] && IsSpace(s[0]) {
      TrimStartSpec(s[1..]);
      assert s[..|s| - |TrimStart(s)|] == [s[0]] + s[1..][..|s[1..]| - |TrimStart(s[1..])|];
    }
  }

  /** `s.trimEnd()`. */
  function TrimEnd(s: string): (r: string)
    ensures |r| <= |s|
    ensures r == [] || !IsSpace(r[|r| - 1])
    decreases |s|
  {
    if s != [] && IsSpace(s[|s| - 1]) then TrimEnd(s[..|s| - 1]) else s
  }

  /** `trimEnd` keeps a prefix of `s` and removes only white space after it. */
  lemma {:induction false} TrimEndSpec(s: string)
    ensures TrimEnd(s) == s[..|TrimEnd(s)|]
    ensures IsBlank(s[|TrimEnd(s)|..])
    decreases |s|
  {
    if s != [] && IsSpace(s[|s| - 1]) {
      var s' := s[..|s| - 1];
      TrimEndSpec(s');
      assert s[|TrimEnd(s)|..] == s'[|TrimEnd(s')|..] + [s[|s| - 1]];
    }
  }

  /** `s.trim()`. */
  function Trim(s: string): string {
    TrimEnd(TrimStart(s))
  }

  /** `s.trim()` is empty exactly when `s` is blank. */
  lemma TrimEmptyIffBlank(s: string)
    ensures Trim(s) == [] <==> IsBlank(s)
  {
    var t := TrimStart(s);
    var k := |s| - |t|;
    TrimStartSpec(s);
    TrimEndSpec(t);
    if Trim(s) == [] {
      assert IsBlank(t[0..]);
      assert t == [];
      assert s[..k] == s;
    } else {
      assert t != [];
      assert t[0] == s[k];
      assert !IsSpace(s[k]);
    }
  }

  /** The result of `s.trim()` is a contiguous piece of `s` with white space only around it. */
  lemma TrimIsSlice(s: string) returns (lo: nat, hi: nat)
    ensures lo <= hi <= |s| && Trim(s) == s[lo..hi]
    ensures IsBlank(s[..lo]) && IsBlank(s[hi..])
    ensures Trim(s) == [] || (!IsSpace(Trim(s)[0]) && !IsSpace(Trim(s)[|Trim(s)| - 1]))
  {
    var t := TrimStart(s);
    TrimStartSpec(s);
    TrimEndSpec(t);
    lo := |s| - |t|;
    hi := lo + |TrimEnd(t)|;
    assert TrimEnd(t) == t[..hi - lo];
    assert s[hi..] == t[hi - lo..];
    if Trim(s) != [] {
      assert Trim(s)[0] == t[0];
    }
  }

  /** Trimming twice is trimming once. */
  lemma TrimIdempotent(s: string)
    ensures Trim(Trim(s)) == Trim(s)
  {
    var t := Trim(s);
    if t != [] {
      var lo, hi := TrimIsSlice(s);
    }
  }

  // ------------------------------------------------------------------ prefixes

  /** `s.startsWith(p)`. */
  predicate StartsWith(s: string, p: string) {
    |p| <= |s| && s[..|p|] == p
  }

  /** `s.slice(0, n)` for a non-negative `n`: the first `n` characters, or all of `s`. */
  function Take(s: string, n: nat): (r: string)
    ensures |r| == if n < |s| then n else |s|
    ensures StartsWith(s, r)
  {
    if n < |s| then s[..n] else s
  }

  // ------------------------------------------------------------------- split

  /** `sep` occurs in `s` at index `k`. */
  predicate OccursAt(s: string, sep: string, k: nat) {
    k + |sep| <= |s| && s[k..k + |sep|] == sep
  }

  /** `sep` occurs somewhere in `s` (`s.includes(sep)`). */
  predicate Contains(s: string, sep: string) {
    exists k: nat :: k <= |s| && OccursAt(s, sep, k)
  }

  /** The first index at or after `i` where `sep` occurs, or `|s|` when there is none. */
  function FindFrom(s: string, sep: string, i: nat): (r: nat)
    requires |sep| > 0 && i <= |s|
    ensures i <= r <= |s|
    ensures r < |s| ==> OccursAt(s, sep, r)
    ensures forall k: nat :: i <= k < r ==> !OccursAt(s, sep, k)
    decreases |s| - i
  {
    if i == |s| then |s|
    else if OccursAt(s, sep, i) then i
    else FindFrom(s, sep, i + 1)
  }

  /**
   * `s.split(sep)` for a non-empty string separator: the pieces between the
   * non-overlapping occurrences of `sep`, found from left to right.
   */
  function Split(s: string, sep: string): (r: seq<string>)
    requires |sep| > 0
    ensures |r| >= 1
    decreases |s|
  {
    var k := FindFrom(s, sep, 0);
    if k == |s| then [s] else [s[..k]] + Split(s[k + |sep|..], sep)
  }

  /** `parts.join(sep)`. */
  function Join(parts: seq<string>, sep: string): string
    decreases |parts|
  {
    if |parts| == 0 then ""
    else if |parts| == 1 then parts[0]
    else parts[0] + sep + Join(parts[1..], sep)
  }

  /** One step of `split`: the piece up to the first separator, then the split of the rest. */
  lemma SplitUnfold(s: string, sep: string) returns (k: nat)
    requires |sep| > 0
    ensures k == FindFrom(s, sep, 0)
    ensures k == |s| ==> Split(s, sep) == [s]
    ensures k < |s| ==> (k + |sep| <= |s|
                         && Split(s, sep) == [s[..k]] + Split(s[k + |sep|..], sep)
                         && s == s[..k] + sep + s[k + |sep|..])
  {
    k := FindFrom(s, sep, 0);
    if k < |s| {
      assert s[k..k + |sep|] == sep;
      assert s == s[..k] + s[k..k + |sep|] + s[k + |sep|..];
    }
  }

  lemma JoinCons(x: string, ps: seq<string>, sep: string)
    requires |ps| >= 1
    ensures Join([x] + ps, sep) == x + sep + Join(ps, sep)
  {
    assert ([x] + ps)[1..] == ps;
  }

  /** Splitting loses nothing: joining the pieces back with the separator gives `s`. */
  lemma {:induction false} JoinSplit(s: string, sep: string)
    requires |sep| > 0
    ensures Join(Split(s, sep), sep) == s
    decreases |s|
  {
    var k := SplitUnfold(s, sep);
    if k < |s| {
      var rest := s[k + |sep|..];
      JoinSplit(rest, sep);
      JoinCons(s[..k], Split(rest, sep), sep);
    }
  }

  /** No piece of `s.split(sep)` contains the separator. */
  lemma {:induction false} SplitPiecesFree(s: string, sep: string)
    requires |sep| > 0
    ensures forall p <- Split(s, sep) :: !Contains(p, sep)
    decreases |s|
  {
    var k := SplitUnfold(s, sep);
    var head := s[..k];
    forall j: nat | j <= |head| ensures !OccursAt(head, sep, j) {
      if j + |sep| <= |head| {
        assert !OccursAt(s, sep, j);
        assert s[j..j + |sep|] == head[j..j + |sep|];
      }
    }
    assert !Contains(head, sep);
    if k < |s| {
      SplitPiecesFree(s[k + |sep|..], sep);
    } else {
      assert head == s;
    }
  }

  /** `FindFrom` passes over indices where the separator does not occur. */
  lemma {:induction false} FindFromSkips(s: string, sep: string, i: nat, k: nat)
    requires |sep| > 0 && i <= k < |s|
    requires forall j: nat :: i <= j < k ==> !OccursAt(s, sep, j)
    requires OccursAt(s, sep, k)
    ensures FindFrom(s, sep, i) == k
    decreases k - i
  {
    if i < k {
      FindFromSkips(s, sep, i + 1, k);
    }
  }

  /** The separator does not start inside a piece free of its first character. */
  lemma NoOccurrenceIn(s: string, sep: string, n: nat)
    requires |sep| > 0 && n <= |s|
    requires forall i :: 0 <= i < n ==> s[i] != sep[0]
    ensures forall k: nat :: k < n ==> !OccursAt(s, sep, k)
  {
    forall k: nat | k < n ensures !OccursAt(s, sep, k) {
      if k + |sep| <= |s| { assert s[k..k + |sep|][0] == s[k]; }
    }
  }

  /** A separator right after a piece free of its first character is where `split` cuts. */
  lemma SplitAfterHead(head: string, sep: string, rest: string)
    requires |sep| > 0
    requires forall i :: 0 <= i < |head| ==> head[i] != sep[0]
    ensures Split(head + sep + rest, sep) == [head] + Split(rest, sep)
  {
    var s := head + sep + rest;
    NoOccurrenceIn(s, sep, |head|);
    assert s[|head|..|head| + |sep|] == sep;
    FindFromSkips(s, sep, 0, |head|);
    var k := SplitUnfold(s, sep);
    assert s[..k] == head;
    assert s[k + |sep|..] == rest;
  }

  /** A string free of the separator's first character is not cut at all. */
  lemma SplitNoSeparator(s: string, sep: string)
    requires |sep| > 0
    requires forall i :: 0 <= i < |s| ==> s[i] != sep[0]
    ensures Split(s, sep) == [s]
  {
    NoOccurrenceIn(s, sep, |s|);
    var k := SplitUnfold(s, sep);
  }

  /** A one-character separator occurs exactly where its character stands. */
  lemma OccursAtOneChar(s: string, sep: string, j: nat)
    requires |sep| == 1
    ensures OccursAt(s, sep, j) <==> j < |s| && s[j] == sep[0]
  {
    if j < |s| {
      assert s[j..j + 1] == [s[j]];
      assert sep == [sep[0]];
    }
  }

  /** Before the first one-character separator no character is the separator's. */
  lemma OneCharHeadFree(s: string, sep: string, k: nat)
    requires |sep| == 1 && k == FindFrom(s, sep, 0)
    ensures forall i :: 0 <= i < k ==> s[i] != sep[0]
  {
    forall i | 0 <= i < k ensures s[i] != sep[0] {
      OccursAtOneChar(s, sep, i);
    }
  }

  /** No character of `s` is `c`. */
  predicate FreeOf(s: string, c: char) {
    forall i :: 0 <= i < |s| ==> s[i] != c
  }

  /**
   * Pieces free of a one-character separator joined by it, and then `y`: the split gives back those pieces and splits the last
   * one continued by `y`.
   */
  lemma {:induction false} SplitJoinedConcat(ps: seq<string>, x: string, y: string, sep: string)
    requires |sep| == 1 && |ps| >= 1 && Join(ps, sep) == x
    requires forall j :: 0 <= j < |ps| ==> FreeOf(ps[j], sep[0])
    ensures Split(x + y, sep) == ps[..|ps| - 1] + Split(ps[|ps| - 1] + y, sep)
    decreases |ps|
  {
    if |ps| > 1 {
      var rest := ps[1..];
      InitOfCons(ps);
      JoinCons(ps[0], rest, sep);
      var x' := Join(rest, sep);
      var tail := x' + y;
      assert x + y == ps[0] + sep + tail;
      SplitAfterHead(ps[0], sep, tail);
      SplitJoinedConcat(rest, x', y, sep);
      CutThenRest(Split(x + y, sep), Split(tail, sep), ps, Split(ps[|ps| - 1] + y, sep));
    }
  }

  /** The pieces after a first cut at `ps[0]`, then the pieces of the rest. */
  lemma CutThenRest(whole: seq<string>, tailPieces: seq<string>, ps: seq<string>, lastPieces: seq<string>)
    requires |ps| > 1
    requires whole == [ps[0]] + tailPieces
    requires tailPieces == ps[1..][..|ps| - 2] + lastPieces
    ensures whole == ps[..|ps| - 1] + lastPieces
  {
    InitOfCons(ps);
  }

  /** A sequence of two or more is its head, then its tail; its prefix without the last element likewise. */
  lemma InitOfCons<T>(ps: seq<T>)
    requires |ps| > 1
    ensures ps == [ps[0]] + ps[1..]
    ensures ps[..|ps| - 1] == [ps[0]] + ps[1..][..|ps| - 2]
    ensures ps[|ps| - 1] == ps[1..][|ps| - 2]
  {
  }

  /**
   * Appending `y` to `x` under a one-character separator: every piece of `x` but the
   * last is final, and the last piece continues into `y`. This is what makes a
   * line buffer equivalent to splitting the whole stream at once.
   */
  lemma SplitOneCharConcat(x: string, y: string, sep: string)
    requires |sep| == 1
    ensures var px := Split(x, sep);
      Split(x + y, sep) == px[..|px| - 1] + Split(px[|px| - 1] + y, sep)
  {
    var px := Split(x, sep);
    assert Join(px, sep) == x by { JoinSplit(x, sep); }
    assert forall j :: 0 <= j < |px| ==> FreeOf(px[j], sep[0]) by { PiecesFreeOfChar(x, sep); }
    SplitJoinedConcat(px, x, y, sep);
  }

  /** No piece of a split by a one-character separator holds that character. */
  lemma PiecesFreeOfChar(x: string, sep: string)
    requires |sep| == 1
    ensures forall j :: 0 <= j < |Split(x, sep)| ==> FreeOf(Split(x, sep)[j], sep[0])
  {
    var px := Split(x, sep);
    SplitPiecesFree(x, sep);
    forall j | 0 <= j < |px| ensures FreeOf(px[j], sep[0]) {
      assert px[j] in px;
      forall i | 0 <= i < |px[j]| ensures px[j][i] != sep[0] {
        OccursAtOneChar(px[j], sep, i);
      }
    }
  }

  // --------------------------------------------------------------- filtering

  /** `s.replace(/[...]/g, '')`: `s` with every character of `drop` removed. */
  function RemoveChars(s: string, drop: set<char>): (r: string)
    ensures forall c <- r :: c !in drop
    ensures |r| <= |s|
    decreases |s|
  {
    if s == [] then ""
    else (if s[0] in drop then "" else [s[0]]) + RemoveChars(s[1..], drop)
  }

  /** `RemoveChars` distributes over concatenation, so the kept characters keep their order. */
  lemma {:induction false} RemoveCharsAppend(a: string, b: string, drop: set<char>)
    ensures RemoveChars(a + b, drop) == RemoveChars(a, drop) + RemoveChars(b, drop)
    decreases |a|
  {
    if a == [] {
      assert a + b == b;
    } else {
      assert (a + b)[0] == a[0];
      assert (a + b)[1..] == a[1..] + b;
      RemoveCharsAppend(a[1..], b, drop);
    }
  }

  /** A string with none of the dropped characters is left unchanged. */
  lemma {:induction false} RemoveCharsNone(s: string, drop: set<char>)
    requires forall c <- s :: c !in drop
    ensures RemoveChars(s, drop) == s
    decreases |s|
  {
    if s != [] {
      assert s[0] in s;
      RemoveCharsNone(s[1..], drop);
    }
  }

  /** `s.replace(/\n+/g, ' ')`: every maximal run of newlines becomes one space. */
  function CollapseNewlines(s: string): (r: string)
    ensures '\n' !in r
    decreases |s|
  {
    if s == [] then ""
    else if s[0] == '\n' then " " + CollapseNewlines(DropNewlines(s))
    else [s[0]] + CollapseNewlines(s[1..])
  }

  /** `s` without its leading run of newlines. */
  function DropNewlines(s: string): (r: string)
    ensures |r| <= |s|
    ensures r == [] || r[0] != '\n'
    ensures forall i :: 0 <= i < |s| - |r| ==> s[i] == '\n'
    decreases |s|
  {
    if s != [] && s[0] == '\n' then DropNewlines(s[1..]) else s
  }

  /** `s.split(run)` pieces: a newline-free piece, then one newline run, then the rest. */
  lemma {:induction false} CollapseNewlinesRun(x: string, run: string, y: string)
    requires '\n' !in x
    requires |run| > 0 && forall c <- run :: c == '\n'
    requires y == [] || y[0] != '\n'
    ensures CollapseNewlines(x + run + y) == x + " " + CollapseNewlines(y)
    decreases |x|
  {
    var s := x + run + y;
    if x == [] {
      assert s == run + y;
      DropNewlinesRun(run, y);
    } else {
      assert x[0] in x;
      assert s[1..] == x[1..] + run + y;
      CollapseNewlinesRun(x[1..], run, y);
    }
  }

  lemma {:induction false} DropNewlinesRun(run: string, y: string)
    requires forall c <- run :: c == '\n'
    requires y == [] || y[0] != '\n'
    ensures DropNewlines(run + y) == y
    decreases |run|
  {
    if run == [] {
      assert run + y == y;
    } else {
      assert run[0] in run;
      assert forall c <- run[1..] :: c in run;
      assert (run + y)[1..] == run[1..] + y;
      DropNewlinesRun(run[1..], y);
    }
  }

  /** Text without newlines is not changed by collapsing. */
  lemma {:induction false} CollapseNewlinesNone(s: string)
    requires '\n' !in s
    ensures CollapseNewlines(s) == s
    decreases |s|
  {
    if s != [] {
      assert s[0] in s;
      CollapseNewlinesNone(s[1..]);
    }
  }

  /** Collapsing newlines brings in no character other than the space. */
  lemma {:induction false} CollapseNewlinesKeeps(s: string, avoid: set<char>)
    requires forall c <- s :: c !in avoid
    requires ' ' !in avoid
    ensures forall c <- CollapseNewlines(s) :: c !in avoid
    decreases |s|
  {
    if s != [] {
      assert s[0] in s;
      if s[0] == '\n' {
        var d := DropNewlines(s);
        assert forall c <- d :: c in s by {
          forall c <- d ensures c in s { var k :| 0 <= k < |d| && d[k] == c; assert s[|s| - |d| + k] == c by { DropNewlinesSuffix(s); } }
        }
        CollapseNewlinesKeeps(d, avoid);
      } else {
        assert forall c <- s[1..] :: c in s;
        CollapseNewlinesKeeps(s[1..], avoid);
      }
    }
  }

  /** `DropNewlines` keeps a suffix of its input. */
  lemma {:induction false} DropNewlinesSuffix(s: string)
    ensures DropNewlines(s) == s[|s| - |DropNewlines(s)|..]
    decreases |s|
  {
    if s != [] && s[0] == '\n' {
      DropNewlinesSuffix(s[1..]);
    }
  }

  // ------------------------------------------------------- input sanitising

  /** `s.replace(/[^…]/g, '')`: the allowed characters of `s`, in order. */
  function Keep(s: string, allowed: char -> bool): (r: string)
    ensures |r| <= |s|
    ensures forall i :: 0 <= i < |r| ==> allowed(r[i])
  {
    if s == [] then []
    else Keep(s[..|s| - 1], allowed) + (if allowed(s[|s| - 1]) then [s[|s| - 1]] else [])
  }

  /** Text made only of allowed characters is kept whole. */
  lemma {:induction false} KeepAllowed(s: string, allowed: char -> bool)
    requires forall i :: 0 <= i < |s| ==> allowed(s[i])
    ensures Keep(s, allowed) == s
  {
    if s != [] {
      KeepAllowed(s[..|s| - 1], allowed);
    }
  }

  /** An `onChange` sanitiser: drop the disallowed characters, then keep at most `n`. */
  function Sanitize(s: string, allowed: char -> bool, n: nat): string {
    Take(Keep(s, allowed), n)
  }

  /** The sanitised text has at most `n` characters, all allowed; sanitising it again changes nothing. */
  lemma SanitizeSpec(s: string, allowed: char -> bool, n: nat)
    ensures |Sanitize(s, allowed, n)| <= n
    ensures forall i :: 0 <= i < |Sanitize(s, allowed, n)| ==> allowed(Sanitize(s, allowed, n)[i])
    ensures Sanitize(Sanitize(s, allowed, n), allowed, n) == Sanitize(s, allowed, n)
  {
    var k := Keep(s, allowed);
    var r := Take(k, n);
    assert forall i :: 0 <= i < |r| ==> r[i] == k[i];
    KeepAllowed(r, allowed);
  }

  /** Allowed text no longer than `n` is left as typed. */
  lemma SanitizeKeepsValid(s: string, allowed: char -> bool, n: nat)
    requires |s| <= n && forall i :: 0 <= i < |s| ==> allowed(s[i])
    ensures Sanitize(s, allowed, n) == s
  {
    KeepAllowed(s, allowed);
  }

  // ----------------------------------------------------------- numbers as text

  predicate IsDigit(c: char) {
    '0' <= c <= '9'
  }

  predicate AllDigits(s: string) {
    forall i :: 0 <= i < |s| ==> IsDigit(s[i])
  }

  /** The numeric value of a string of decimal digits. */
  function DigitsValue(s: string): nat
    requires AllDigits(s)
    decreases |s|
  {
    if s == [] then 0
    else DigitsValue(s[..|s| - 1]) * 10 + (s[|s| - 1] as int - '0' as int)
  }

  /** `String(n)` for a natural number: its decimal digits, no leading zero. */
  function NatToString(n: nat): (r: string)
    ensures |r| >= 1 && AllDigits(r)
    ensures r[0] == '0' ==> n == 0 && r == "0"
    decreases n
  {
    if n < 10 then [('0' as int + n) as char]
    else NatToString(n / 10) + [('0' as int + n % 10) as char]
  }

  /** Reading the printed digits back gives the number. */
  lemma {:induction false} NatToStringValue(n: nat)
    ensures DigitsValue(NatToString(n)) == n
    decreases n
  {
    if n >= 10 {
      NatToStringValue(n / 10);
      var r := NatToString(n);
      assert r[..|r| - 1] == NatToString(n / 10);
    }
  }

  /** One printed digit exactly for the numbers below ten, two for 10..99. */
  lemma NatToStringLength(n: nat)
    ensures n < 10 ==> |NatToString(n)| == 1
    ensures 10 <= n < 100 ==> |NatToString(n)| == 2
  {
  }

  /** `s.padStart(width, fill)` with a one-character fill. */
  function PadStart(s: string, width: nat, fill: char): (r: string)
    ensures |r| == if |s| < width then width else |s|
    ensures r[|r| - |s|..] == s
    ensures forall i :: 0 <= i < |r| - |s| ==> r[i] == fill
  {
    if |s| < width then seq(width - |s|, _ => fill) + s else s
  }

  /** `String(n).padStart(2, '0')`. */
  function Pad2(n: nat): string {
    PadStart(NatToString(n), 2, '0')
  }

  /** Below 100 the padded text is exactly two digits that read back as the number. */
  lemma Pad2Digits(n: nat)
    requires n < 100
    ensures |Pad2(n)| == 2 && AllDigits(Pad2(n)) && DigitsValue(Pad2(n)) == n
  {
    NatToStringLength(n);
    NatToStringValue(n);
    var d := NatToString(n);
    if n < 10 {
      assert PadStart(d, 2, '0') == ['0'] + d;
      assert (['0'] + d)[..1] == ['0'];
    }
  }

  // --------------------------------------------------------------- ASCII case

  /** ASCII lower-casing; every other character is left alone. */
  function AsciiLower(c: char): char {
    if 'A' <= c <= 'Z' then (c as int + 32) as char else c
  }

  /** `a` and `b` are equal up to ASCII letter case. */
  predicate EqualsIgnoreAsciiCase(a: string, b: string) {
    |a| == |b| && forall i :: 0 <= i < |a| ==> AsciiLower(a[i]) == AsciiLower(b[i])
  }

  // ---------------------------------------------------------- query strings

  /** `URLSearchParams.get(key)`: the value of the first pair named `key`, or `null`. */
  function ParamGet(params: seq<(string, string)>, key: string): (r: Option<string>)
    ensures r.None? <==> forall i :: 0 <= i < |params| ==> params[i].0 != key
    ensures r.Some? ==> exists i :: 0 <= i < |params| && params[i] == (key, r.value)
                                  && (forall j :: 0 <= j < i ==> params[j].0 != key)
    decreases |params|
  {
    if params == [] then None
    else if params[0].0 == key then Some(params[0].1)
    else
      var r := ParamGet(params[1..], key);
      if r.Some? then
        var i :| 0 <= i < |params[1..]| && params[1..][i] == (key, r.value)
                 && (forall j :: 0 <= j < i ==> params[1..][j].0 != key);
        assert params[i + 1] == (key, r.value);
        r
      else r
  }
}
