/**
 * What the agent reader takes from any text (src/agents/agent-deployer.ts:254-309), said without its scanning: the
 * span between the fences, the lines that are pairs, and the field each pair sets.
 */
module AgentReading {
  import opened Collections
  import opened Text
  import opened AgentFormat
  import opened AgentRoundTrip

  // ------------------------------------------------------------------- fences

  /** The text begins with three dashes, and between them and a nothing but white space, a line break last. */
  ghost predicate Opens(s: string, a: int) {
    4 <= a <= |s| && s[..3] == "---" && AllSpace(s[3..a]) && s[a - 1] == '\n'
  }

  /** At b a line break and three dashes; for the whole expression, nothing else to the end of some line. */
  ghost predicate Fence(s: string, b: int, whole: bool) {
    && 0 <= b <= |s| && "\n---" <= s[b..]
    && (whole ==> exists c :: b + 4 <= c < |s| && s[c] == '\n' && AllSpace(s[b + 4..c]))
  }

  lemma RunIsLongest(s: string, i: nat, c: nat)
    requires i <= c <= |s|
    ensures AllSpace(s[i..c]) <==> c <= RunEnd(s, i)
  {
    var e := RunEnd(s, i);
    if c <= e {
      assert forall x :: x in s[i..c] ==> x in s[i..e];
    } else {
      assert s[i..c][e - i] == s[e];
    }
  }

  lemma FenceLetters(s: string, b: nat)
    requires b <= |s|
    ensures "\n---" <= s[b..] <==> FenceAt(s, b)
  {
    if FenceAt(s, b) {
      assert s[b..][..4] == "\n---";
    }
    if "\n---" <= s[b..] {
      var t := s[b..];
      assert t[0] == '\n' && t[1] == '-' && t[2] == '-' && t[3] == '-';
    }
  }

  lemma BreakInRun(s: string, i: nat)
    requires i <= |s|
    ensures '\n' in s[i..RunEnd(s, i)] <==> exists c :: i <= c < |s| && s[c] == '\n' && AllSpace(s[i..c])
  {
    var e := RunEnd(s, i);
    if '\n' in s[i..e] {
      var k :| 0 <= k < e - i && s[i..e][k] == '\n';
      RunIsLongest(s, i, i + k);
      assert s[i + k] == '\n';
    }
    if c :| i <= c < |s| && s[c] == '\n' && AllSpace(s[i..c]) {
      RunIsLongest(s, i, c);
      assert IsSpace(s[c]);
      assert s[i..e][c - i] == s[c];
    }
  }

  lemma FenceExactly(s: string, b: nat, whole: bool)
    requires b <= |s|
    ensures Closes(s, b, whole) <==> Fence(s, b, whole)
  {
    FenceLetters(s, b);
    if FenceAt(s, b) {
      BreakInRun(s, b + 4);
    }
  }

  /** The first fence from i on. */
  ghost predicate FirstFence(s: string, i: int, b: int, whole: bool) {
    i <= b && Fence(s, b, whole) && forall k :: i <= k < b ==> !Fence(s, k, whole)
  }

  ghost predicate NoneFrom(s: string, i: int, whole: bool) {
    forall k :: i <= k ==> !Fence(s, k, whole)
  }

  lemma OneFurther(s: string, i: int, b: int, whole: bool)
    ensures FirstFence(s, i, b, whole) <==> if Fence(s, i, whole) then b == i else FirstFence(s, i + 1, b, whole)
    ensures NoneFrom(s, i, whole) <==> !Fence(s, i, whole) && NoneFrom(s, i + 1, whole)
  {
  }

  lemma PastTheEnd(s: string, i: nat, b: nat, whole: bool)
    requires i >= |s|
    ensures !FirstFence(s, i, b, whole) && NoneFrom(s, i, whole)
  {
    assert forall k :: i <= k <= |s| ==> s[k..] == "";
  }

  lemma {:induction false} FindCloseExactly(s: string, i: nat, whole: bool, b: nat)
    ensures FindClose(s, i, whole) == Some(b) <==> FirstFence(s, i, b, whole)
    ensures FindClose(s, i, whole).None? <==> NoneFrom(s, i, whole)
    decreases |s| - i
  {
    if i >= |s| {
      PastTheEnd(s, i, b, whole);
    } else {
      FenceExactly(s, i, whole);
      OneFurther(s, i, b, whole);
      FindCloseExactly(s, i + 1, whole, b);
    }
  }

  ghost predicate LastBreak(s: string, j: nat, whole: bool, a: nat, b: nat)
    requires j <= |s|
  {
    && 4 <= a <= j && s[a - 1] == '\n' && FindClose(s, a, whole) == Some(b)
    && forall x: nat :: a < x <= j && s[x - 1] == '\n' ==> FindClose(s, x, whole).None?
  }

  lemma {:induction false} FindOpenExactly(s: string, j: nat, whole: bool, a: nat, b: nat)
    requires j <= |s|
    ensures FindOpen(s, j, whole) == Some(Span(a, b)) <==> LastBreak(s, j, whole, a, b)
  {
    if j <= 3 {
    } else if s[j - 1] == '\n' && FindClose(s, j, whole).Some? {
    } else {
      FindOpenExactly(s, j - 1, whole, a, b);
    }
  }

  lemma OpensExactly(s: string, a: nat)
    requires |s| >= 3
    ensures Opens(s, a) <==>
            s[0] == '-' && s[1] == '-' && s[2] == '-' && 4 <= a <= RunEnd(s, 3) && s[a - 1] == '\n'
  {
    assert s[..3] == [s[0], s[1], s[2]];
    if 3 <= a <= |s| {
      RunIsLongest(s, 3, a);
    }
  }

  /**
   * The span the expression captures: it opens as late as some fence still follows, and ends at the first fence.
   */
  lemma FrontExactly(s: string, whole: bool, a: nat, b: nat)
    ensures MatchFront(s, whole) == Some(Span(a, b)) <==>
            && Opens(s, a) && FirstFence(s, a, b, whole)
            && forall x: nat :: a < x && Opens(s, x) ==> NoneFrom(s, x, whole)
  {
    if |s| >= 3 {
      FindOpenExactly(s, RunEnd(s, 3), whole, a, b);
      forall x: nat
        ensures Opens(s, x) <==>
                s[0] == '-' && s[1] == '-' && s[2] == '-' && 4 <= x <= RunEnd(s, 3) && s[x - 1] == '\n'
        ensures FindClose(s, x, whole).None? <==> NoneFrom(s, x, whole)
        ensures FindClose(s, x, whole) == Some(b) <==> FirstFence(s, x, b, whole)
      {
        OpensExactly(s, x);
        FindCloseExactly(s, x, whole, b);
      }
    }
  }

  // -------------------------------------------------------------------- lines

  /** The line is a word, a colon, white space that may be missing, and something on the same line. */
  ghost predicate IsPair(line: string, w: string, space: string, v: string) {
    && w != "" && (forall c :: c in w ==> IsWord(c))
    && AllSpace(space) && v != "" && SingleLine(v) && line == w + ([':'] + (space + v))
  }

  lemma SpaceBefore(space: string, v: string)
    requires AllSpace(space)
    ensures TrimStart(space + v) == TrimStart(v) && Trim(space + v) == Trim(v)
  {
    TrimStartSkips(space, v);
  }

  lemma PairIsRead(line: string, w: string, space: string, v: string)
    requires IsPair(line, w, space, v)
    ensures MatchLine(line) == Some(Entry(w, Trim(v)))
  {
    var rest := space + v;
    WordLengthOf(w, [':'] + rest);
    MatchAt(w, rest, line);
    SpaceBefore(space, v);
    TrimStartSingleLine(v);
    TrimBlank(v);
    LastSingleLine(v);
    assert rest[|rest| - 1] == v[|v| - 1];
    ValueRead(w, rest, TrimStart(rest), Trim(rest));
  }

  lemma {:induction false} WordIsWord(line: string)
    ensures forall c :: c in line[..WordLength(line)] ==> IsWord(c)
  {
    if line != "" && IsWord(line[0]) {
      WordIsWord(line[1..]);
      assert line[..WordLength(line)] == [line[0]] + line[1..][..WordLength(line[1..])];
    }
  }

  lemma LastOfRest(rest: string) returns (space: string, v: string)
    requires AllSpace(rest) && rest != "" && !IsLineTerminator(rest[|rest| - 1])
    ensures AllSpace(space) && v != "" && SingleLine(v) && rest == space + v
  {
    space, v := rest[..|rest| - 1], [rest[|rest| - 1]];
    assert forall c :: c in space ==> c in rest;
  }

  lemma ValueParts(w: string, rest: string) returns (space: string, v: string)
    requires ReadAfterColon(w, rest).Some?
    ensures AllSpace(space) && v != "" && SingleLine(v) && rest == space + v
  {
    v := TrimStart(rest);
    if v == "" {
      TrimBlank(rest);
      space, v := LastOfRest(rest);
    } else {
      space := TrimStartSplit(rest);
    }
  }

  lemma ReadIsPair(line: string) returns (w: string, space: string, v: string)
    requires MatchLine(line).Some?
    ensures IsPair(line, w, space, v)
  {
    WordEndsAtColon(line);
    WordIsWord(line);
    var n := WordLength(line);
    w := line[..n];
    Around(line, n);
    AppendAssoc(w, [':'], line[n + 1..]);
    MatchAtColon(line, n);
    space, v := ValueParts(w, line[n + 1..]);
  }

  /** Which lines are pairs, and what they say. */
  lemma LineExactly(line: string, w: string, x: string)
    ensures MatchLine(line) == Some(Entry(w, x)) <==>
            exists space, v :: IsPair(line, w, space, v) && x == Trim(v)
  {
    if MatchLine(line) == Some(Entry(w, x)) {
      var w2, space, v := ReadIsPair(line);
      PairIsRead(line, w2, space, v);
    }
    if space, v :| IsPair(line, w, space, v) && x == Trim(v) {
      PairIsRead(line, w, space, v);
    }
  }

  // ------------------------------------------------------------------- fields

  /** The value of the last pair with this word. */
  function Last(lines: seq<string>, word: string): Option<string> {
    if lines == [] then None
    else
      var e := MatchLine(lines[|lines| - 1]);
      if e.Some? && e.value.word == word then Some(e.value.value) else Last(lines[..|lines| - 1], word)
  }

  /** Cut at its commas, each piece trimmed. */
  function Pieces(v: Option<string>): Option<seq<string>> {
    if v.None? then None else Some(Map(Trim, Split(v.value, ',')))
  }

  lemma WordsDiffer(word: string)
    ensures KeyOf("name") == Some(Name) && KeyOf("description") == Some(Description) && KeyOf("model") == Some(Model)
    ensures KeyOf("tools") == Some(Tools) && KeyOf("category") == Some(Category) && KeyOf("version") == Some(Version)
    ensures KeyOf("dependencies") == Some(Dependencies)
    ensures KeyOf(word).Some? ==> word == KeyText(KeyOf(word).value)
  {
  }

  lemma AssignedField(m: Metadata, word: string, value: string)
    ensures var k := KeyOf(word);
            var r := if k.Some? then Assign(Items, m, k.value, value) else m;
            r == Metadata(if word == "name" then Some(value) else m.name,
                          if word == "description" then Some(value) else m.description,
                          if word == "model" then Some(value) else m.model,
                          if word == "tools" then Pieces(Some(value)) else m.tools,
                          if word == "category" then Some(value) else m.category,
                          if word == "version" then Some(value) else m.version,
                          if word == "dependencies" then Pieces(Some(value)) else m.dependencies)
  {
    WordsDiffer(word);
  }

  /** Each field is set by the last pair with its name; the two lists are cut at their commas. */
  lemma {:induction false} FieldsExactly(lines: seq<string>)
    ensures ReadLines(lines) ==
            Metadata(Last(lines, "name"), Last(lines, "description"), Last(lines, "model"),
                     Pieces(Last(lines, "tools")), Last(lines, "category"), Last(lines, "version"),
                     Pieces(Last(lines, "dependencies")))
  {
    if lines == [] {
    } else {
      FieldsExactly(lines[..|lines| - 1]);
      var e := MatchLine(lines[|lines| - 1]);
      if e.Some? {
        AssignedField(ReadLines(lines[..|lines| - 1]), e.value.word, e.value.value);
      }
    }
  }

  /** What is read from a text with a front, and from one without. */
  lemma ReadExactly(s: string, a: nat, b: nat)
    ensures Opens(s, a) && FirstFence(s, a, b, false)
            && (forall x: nat :: a < x && Opens(s, x) ==> NoneFrom(s, x, false)) ==>
              Parse(s) == ReadLines(Lines(s[a..b]))
    ensures (forall x: nat :: Opens(s, x) ==> NoneFrom(s, x, false)) ==>
              Parse(s) == Metadata(None, None, None, None, None, None, None)
  {
    FrontExactly(s, false, a, b);
    if MatchFront(s, false).Some? {
      FrontExactly(s, false, MatchFront(s, false).value.start, MatchFront(s, false).value.end);
    }
  }

  /** The body: what follows the closing fence, trimmed, and the whole text where there is no front. */
  lemma BodyExactly(s: string, a: nat, b: nat)
    ensures Opens(s, a) && FirstFence(s, a, b, true)
            && (forall x: nat :: a < x && Opens(s, x) ==> NoneFrom(s, x, true)) ==>
              b + 4 <= |s| && RemoveFrontmatter(s) == Trim(s[b + 4..])
    ensures (forall x: nat :: Opens(s, x) ==> NoneFrom(s, x, true)) ==> RemoveFrontmatter(s) == s
  {
    FrontExactly(s, true, a, b);
    if MatchFront(s, true).Some? {
      FrontExactly(s, true, MatchFront(s, true).value.start, MatchFront(s, true).value.end);
    }
  }
}
