/**
 * The string operations the formats rest on, as JavaScript has them: white space, `trim`, `split`
 * and `join` on one separator, decimal printing and reading.
 */
module Text {

  // -------------------------------------------------------------- characters

  /** WhiteSpace and LineTerminator of ECMA-262, sections 12.2 and 12.3: what `\s` matches and `trim` removes. */
  predicate IsSpace(c: char) {
    || c == '\t' || c == '\U{b}' || c == '\U{c}' || c == ' ' || c == '\U{a0}' || c == '\U{feff}'
    || c == '\U{1680}' || '\U{2000}' <= c <= '\U{200a}' || c == '\U{202f}' || c == '\U{205f}' || c == '\U{3000}'
    || IsLineTerminator(c)
  }

  /** What `.` does not match. */
  predicate IsLineTerminator(c: char) {
    c == '\n' || c == '\r' || c == '\U{2028}' || c == '\U{2029}'
  }

  predicate SingleLine(s: string) {
    forall c :: c in s ==> !IsLineTerminator(c)
  }

  predicate AllSpace(s: string) {
    forall c :: c in s ==> IsSpace(c)
  }

  // -------------------------------------------------------------------- trim

  function TrimStart(s: string): (r: string)
    ensures |r| <= |s|
  {
    if s == [] || !IsSpace(s[0]) then s else TrimStart(s[1..])
  }

  function TrimEnd(s: string): (r: string)
    ensures |r| <= |s|
  {
    if s == [] || !IsSpace(s[|s| - 1]) then s else TrimEnd(s[..|s| - 1])
  }

  function Trim(s: string): string {
    TrimEnd(TrimStart(s))
  }

  predicate Trimmed(s: string) {
    s == [] || (!IsSpace(s[0]) && !IsSpace(s[|s| - 1]))
  }

  lemma TrimStartUnique(pre: string, s: string)
    requires AllSpace(pre) && (s == [] || !IsSpace(s[0]))
    ensures TrimStart(pre + s) == s
  {
    if pre == [] {
      assert pre + s == s;
    } else {
      assert (pre + s)[1..] == pre[1..] + s;
      TrimStartUnique(pre[1..], s);
    }
  }

  lemma TrimEndUnique(s: string, post: string)
    requires AllSpace(post) && (s == [] || !IsSpace(s[|s| - 1]))
    ensures TrimEnd(s + post) == s
  {
    if post == [] {
      assert s + post == s;
    } else {
      assert (s + post)[..|s + post| - 1] == s + post[..|post| - 1];
      TrimEndUnique(s, post[..|post| - 1]);
    }
  }

  /** Trimming takes exactly the white space around a trimmed middle. */
  lemma TrimUnique(pre: string, s: string, post: string)
    requires AllSpace(pre) && AllSpace(post) && Trimmed(s)
    ensures Trim(pre + s + post) == s
  {
    if s == [] {
      assert pre + s + post == (pre + post) + [];
      TrimStartUnique(pre + post, []);
    } else {
      assert pre + s + post == pre + (s + post);
      TrimStartUnique(pre, s + post);
      TrimEndUnique(s, post);
    }
  }

  lemma TrimIsWithin(s: string)
    ensures |Trim(s)| <= |s| && forall c :: c in Trim(s) ==> c in s
  {
    TrimStartMembers(s);
    TrimEndPrefix(TrimStart(s));
  }

  lemma TrimEnds(s: string)
    ensures Trimmed(Trim(s))
  {
    var a := TrimStart(s);
    var pre := TrimStartSplit(s);
    var post := TrimEndSplit(a);
    TrimEndPrefix(a);
  }

  lemma TrimIsTrimmed(s: string)
    ensures Trimmed(Trim(s))
    ensures Trim(s) == s <==> Trimmed(s)
    ensures |Trim(s)| <= |s|
    ensures forall c :: c in Trim(s) ==> c in s
  {
    TrimEnds(s);
    TrimIsWithin(s);
    if Trimmed(s) {
      TrimUnique([], s, []);
      AppendsNothing(s);
    }
  }

  lemma AppendsNothing(s: string)
    ensures [] + s + [] == s
  {
  }

  /** What is taken off the start is white space, and what stays does not begin with any. */
  lemma {:induction false} TrimStartSplit(s: string) returns (pre: string)
    ensures AllSpace(pre) && s == pre + TrimStart(s)
    ensures TrimStart(s) == "" || !IsSpace(TrimStart(s)[0])
  {
    pre := "";
    if s != [] && IsSpace(s[0]) {
      var rest := TrimStartSplit(s[1..]);
      pre := [s[0]] + rest;
      Around(s, 0);
      Regroup3([s[0]], rest, TrimStart(s[1..]));
    }
  }

  lemma {:induction false} TrimEndSplit(s: string) returns (post: string)
    ensures AllSpace(post) && s == TrimEnd(s) + post
    ensures TrimEnd(s) == "" || !IsSpace(TrimEnd(s)[|TrimEnd(s)| - 1])
  {
    post := "";
    if s != [] && IsSpace(s[|s| - 1]) {
      var rest := TrimEndSplit(s[..|s| - 1]);
      post := rest + [s[|s| - 1]];
      Around(s, |s| - 1);
      Regroup3(TrimEnd(s[..|s| - 1]), rest, [s[|s| - 1]]);
    }
  }

  lemma TrimEndPrefix(s: string)
    ensures TrimEnd(s) <= s
  {
    var post := TrimEndSplit(s);
  }

  lemma TrimStartMembers(s: string)
    ensures forall c :: c in TrimStart(s) ==> c in s
  {
    var pre := TrimStartSplit(s);
  }

  lemma TrimSplit(s: string) returns (pre: string, post: string)
    ensures AllSpace(pre) && AllSpace(post) && s == pre + Trim(s) + post
  {
    pre := TrimStartSplit(s);
    post := TrimEndSplit(TrimStart(s));
    Regroup3(pre, TrimEnd(TrimStart(s)), post);
  }

  lemma {:induction false} TrimStartBlank(s: string)
    ensures TrimStart(s) == "" <==> AllSpace(s)
  {
    if s == "" {
    } else {
      assert s[0] in s;
      TrimStartBlank(s[1..]);
      assert forall c :: c in s <==> c == s[0] || c in s[1..];
    }
  }

  lemma TrimBlank(s: string)
    ensures TrimStart(s) == "" <==> AllSpace(s)
    ensures Trim(s) == "" <==> AllSpace(s)
  {
    TrimStartBlank(s);
    var a := TrimStart(s);
    var pre := TrimStartSplit(s);
    var post := TrimEndSplit(a);
    assert TrimEnd(a) == "" ==> a == post;
    assert a != "" ==> a[0] in a;
  }

  lemma {:induction false} TrimStartSkips(pre: string, s: string)
    requires AllSpace(pre)
    ensures TrimStart(pre + s) == TrimStart(s)
  {
    if pre == [] {
      assert pre + s == s;
    } else {
      assert pre[0] in pre;
      assert (pre + s)[1..] == pre[1..] + s;
      TrimStartSkips(pre[1..], s);
    }
  }

  // ---------------------------------------------------------- split and join

  function IndexOf(s: string, c: char): (i: nat)
    requires c in s
    ensures i < |s| && s[i] == c && c !in s[..i]
  {
    if s[0] == c then 0
    else
      assert s == [s[0]] + s[1..];
      var i := IndexOf(s[1..], c);
      assert s[..i + 1] == [s[0]] + s[1..][..i];
      i + 1
  }

  function Split(s: string, c: char): (r: seq<string>)
    ensures r != []
    ensures forall l :: l in r ==> c !in l
    decreases |s|
  {
    if c !in s then [s]
    else
      var i := IndexOf(s, c);
      [s[..i]] + Split(s[i + 1..], c)
  }

  function Lines(s: string): seq<string> {
    Split(s, '\n')
  }

  function Join(parts: seq<string>, sep: string): string {
    if parts == [] then ""
    else if |parts| == 1 then parts[0]
    else parts[0] + sep + Join(parts[1..], sep)
  }

  lemma {:induction false} IndexOfFirst(a: string, c: char, b: string)
    requires c !in a
    ensures IndexOf(a + [c] + b, c) == |a|
  {
    var s := a + [c] + b;
    assert s[|a|] == c;
    if a != [] {
      assert s[1..] == a[1..] + [c] + b;
      assert s[0] == a[0];
      IndexOfFirst(a[1..], c, b);
    }
  }

  lemma SplitFirst(a: string, c: char, b: string)
    requires c !in a
    ensures Split(a + [c] + b, c) == [a] + Split(b, c)
  {
    var s := a + [c] + b;
    IndexOfFirst(a, c, b);
    assert s[|a|] == c;
    assert s[..|a|] == a && s[|a| + 1..] == b;
  }

  lemma Regroup<T>(x: seq<T>, y: seq<T>, z: seq<T>, u: seq<T>, v: seq<T>)
    ensures (x + y + z) + u + v == x + y + (z + u + v)
  {
  }

  lemma Regroup3<T>(x: seq<T>, y: seq<T>, z: seq<T>)
    ensures x + (y + z) == x + y + z
  {
  }

  lemma SplitAtStep(x: string, y: string, c: char, b: string, a: string, rest: string)
    requires c !in x && rest == y + [c] + b && Split(rest, c) == Split(y, c) + Split(b, c)
    requires a == x + [c] + y
    ensures Split(a + [c] + b, c) == Split(a, c) + Split(b, c)
  {
    Regroup(x, [c], y, [c], b);
    SplitFirst(x, c, rest);
    SplitFirst(x, c, y);
    Regroup3([x], Split(y, c), Split(b, c));
  }

  lemma Around<T>(s: seq<T>, i: nat)
    requires i < |s|
    ensures s == s[..i] + [s[i]] + s[i + 1..]
  {
  }

  lemma CutAt(a: string, c: char) returns (x: string, y: string)
    requires c in a
    ensures c !in x && a == x + [c] + y && |y| < |a|
  {
    var i := IndexOf(a, c);
    Around(a, i);
    x, y := a[..i], a[i + 1..];
  }

  /** Splitting distributes over a separator wherever it stands. */
  lemma {:induction false} SplitAt(a: string, c: char, b: string)
    ensures Split(a + [c] + b, c) == Split(a, c) + Split(b, c)
    decreases |a|
  {
    if c !in a {
      SplitFirst(a, c, b);
    } else {
      var x, y := CutAt(a, c);
      SplitAt(y, c, b);
      SplitAtStep(x, y, c, b, a, y + [c] + b);
    }
  }

  lemma {:induction false} SplitJoin(parts: seq<string>, c: char)
    requires parts != [] && forall p :: p in parts ==> c !in p
    ensures Split(Join(parts, [c]), c) == parts
  {
    assert parts[0] in parts;
    if |parts| > 1 {
      SplitFirst(parts[0], c, Join(parts[1..], [c]));
      SplitJoin(parts[1..], c);
      assert [parts[0]] + parts[1..] == parts;
    } else {
      assert parts == [parts[0]];
    }
  }

  lemma {:induction false} JoinAppend(a: seq<string>, b: seq<string>, sep: string)
    requires a != [] && b != []
    ensures Join(a + b, sep) == Join(a, sep) + sep + Join(b, sep)
  {
    if |a| == 1 {
      assert (a + b)[1..] == b;
    } else {
      assert (a + b)[1..] == a[1..] + b;
      JoinAppend(a[1..], b, sep);
    }
  }

  // ------------------------------------------------------------------ digits

  predicate IsDigit(c: char) {
    '0' <= c <= '9'
  }

  predicate AllDigits(s: string) {
    forall c :: c in s ==> IsDigit(c)
  }

  lemma DigitsAreSingleLine(s: string)
    requires AllDigits(s)
    ensures SingleLine(s)
  {
  }

  function DigitChar(d: nat): (c: char)
    requires d < 10
    ensures IsDigit(c) && DigitValue(c) == d
  {
    '0' + d as char
  }

  function DigitValue(c: char): nat
    requires IsDigit(c)
  {
    (c as int) - ('0' as int)
  }

  /** `Number(s)` of a run of digits. */
  function ParseNat(s: string): nat
    requires AllDigits(s)
  {
    if s == [] then 0 else ParseNat(s[..|s| - 1]) * 10 + DigitValue(s[|s| - 1])
  }

  /** `String(n)`. */
  function NatToString(n: nat): (s: string)
    ensures s != [] && AllDigits(s)
  {
    if n < 10 then [DigitChar(n)] else NatToString(n / 10) + [DigitChar(n % 10)]
  }

  lemma {:induction false} ParsePrintedNat(n: nat)
    ensures ParseNat(NatToString(n)) == n
  {
    if n >= 10 {
      ParsePrintedNat(n / 10);
      assert NatToString(n)[..|NatToString(n)| - 1] == NatToString(n / 10);
    } else {
      assert NatToString(n)[..0] == [];
    }
  }
}
