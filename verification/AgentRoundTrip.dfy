/** What survives printing an agent and reading it back. */
module AgentRoundTrip {
  import opened Collections
  import opened Text
  import opened AgentFormat

  // ------------------------------------------------------------------- lists

  lemma TrimOf(s: string, a: string, t: string, b: string)
    requires s == a + t + b && AllSpace(a) && AllSpace(b) && Trimmed(t)
    ensures Trim(s) == t
  {
    TrimUnique(a, t, b);
  }

  lemma SpaceAppend(a: string, b: string)
    requires AllSpace(a) && AllSpace(b)
    ensures AllSpace(a + b)
  {
  }

  lemma TrimSkipsEnd(s: string, post: string)
    requires AllSpace(post)
    ensures Trim(s + post) == Trim(s)
  {
    var a, b := TrimSplit(s);
    var t := Trim(s);
    TrimIsTrimmed(s);
    SpaceAppend(b, post);
    AppendAssoc(a + t, b, post);
    TrimOf(s + post, a, t, b + post);
  }

  lemma ItemsFirst(a: string, b: string)
    requires ',' !in a
    ensures Items(a + [','] + b) == [Trim(a)] + Items(b)
  {
    SplitFirst(a, ',', b);
    MapAppend(Trim, [a], Split(b, ','));
    MapOne(Trim, a);
  }

  lemma OneItem(a: string)
    requires ',' !in a
    ensures Items(a) == [Trim(a)]
  {
    MapOne(Trim, a);
  }

  lemma NoCommaInSpace(pre: string, s: string)
    requires AllSpace(pre) && ',' !in s
    ensures ',' !in pre + s && ',' !in s + pre
  {
    assert !IsSpace(',');
  }

  lemma ItemsSkipStart(pre: string, s: string)
    requires AllSpace(pre)
    ensures Items(pre + s) == Items(s)
  {
    if ',' !in s {
      NoCommaInSpace(pre, s);
      OneItem(s);
      OneItem(pre + s);
      TrimStartSkips(pre, s);
    } else {
      var i := IndexOf(s, ',');
      var a, b := s[..i], s[i + 1..];
      assert s == a + [','] + b;
      assert pre + s == (pre + a) + [','] + b;
      NoCommaInSpace(pre, a);
      ItemsFirst(a, b);
      ItemsFirst(pre + a, b);
      TrimStartSkips(pre, a);
    }
  }

  lemma {:induction false} ItemsSkipEnd(s: string, post: string)
    requires AllSpace(post)
    ensures Items(s + post) == Items(s)
    decreases |s|
  {
    if ',' !in s {
      NoCommaInSpace(post, s);
      OneItem(s);
      OneItem(s + post);
      TrimSkipsEnd(s, post);
    } else {
      var i := IndexOf(s, ',');
      assert s == s[..i] + [','] + s[i + 1..];
      assert s + post == s[..i] + [','] + (s[i + 1..] + post);
      ItemsFirst(s[..i], s[i + 1..]);
      ItemsFirst(s[..i], s[i + 1..] + post);
      ItemsSkipEnd(s[i + 1..], post);
    }
  }

  lemma ItemsOfTrimmed(s: string)
    ensures Items(Trim(s)) == Items(s)
  {
    var a, b := TrimSplit(s);
    ItemsSkipEnd(a + Trim(s), b);
    ItemsSkipStart(a, Trim(s));
  }

  lemma ItemsAppend(a: string, b: string)
    ensures Items(a + ", " + b) == Items(a) + Items(b)
  {
    assert a + ", " + b == a + [','] + (" " + b);
    SplitAt(a, ',', " " + b);
    MapAppend(Trim, Split(a, ','), Split(" " + b, ','));
    ItemsSkipStart(" ", b);
  }

  /** A cutter that distributes over the separator takes a joined list apart item by item. */
  lemma {:induction false} CutJoined(cut: string -> seq<string>, sep: string, items: seq<string>)
    requires items != [] && forall a, b :: cut(a + sep + b) == cut(a) + cut(b)
    ensures cut(Join(items, sep)) == FlatMap(cut, items)
  {
    FlatMapOne(cut, items[0]);
    assert items == [items[0]] + items[1..];
    if |items| == 1 {
      assert items == [items[0]];
    } else {
      FlatMapAppend(cut, [items[0]], items[1..]);
      CutJoined(cut, sep, items[1..]);
      assert cut(items[0] + sep + Join(items[1..], sep)) == cut(items[0]) + cut(Join(items[1..], sep));
    }
  }

  /** A printed list reads back with each of its items cut at the commas and trimmed. */
  lemma ListReadsBack(items: seq<string>)
    requires items != []
    ensures Items(Trim(Join(items, ", "))) == FlatMap(Items, items)
  {
    ItemsOfTrimmed(Join(items, ", "));
    forall a, b ensures Items(a + ", " + b) == Items(a) + Items(b) {
      ItemsAppend(a, b);
    }
    CutJoined(Items, ", ", items);
  }

  lemma {:induction false} JoinSingleLine(items: seq<string>)
    requires forall x :: x in items ==> SingleLine(x)
    ensures SingleLine(Join(items, ", "))
  {
    if |items| > 1 {
      assert items[0] in items;
      JoinSingleLine(items[1..]);
    } else if |items| == 1 {
      assert items[0] in items;
    }
  }

  // ------------------------------------------------------------------- lines

  lemma KeyTextIsWord(k: Key)
    ensures KeyOf(KeyText(k)) == Some(k)
    ensures KeyText(k) != "" && forall c :: c in KeyText(k) ==> IsWord(c)
  {
  }

  lemma {:induction false} WordLengthOf(w: string, rest: string)
    requires forall c :: c in w ==> IsWord(c)
    requires rest != "" && !IsWord(rest[0])
    ensures WordLength(w + rest) == |w|
  {
    if w == "" {
      assert w + rest == rest;
    } else {
      assert (w + rest)[1..] == w[1..] + rest;
      assert (w + rest)[0] in w;
      WordLengthOf(w[1..], rest);
    }
  }

  lemma SingleLineAppend(a: string, b: string)
    requires SingleLine(a) && SingleLine(b)
    ensures SingleLine(a + b)
  {
  }

  lemma SuffixSingleLine(s: string, n: nat)
    requires SingleLine(s) && n <= |s|
    ensures SingleLine(s[n..])
  {
  }

  lemma MatchAtColon(line: string, w: nat)
    requires w == WordLength(line) && 0 < w < |line| && line[w] == ':'
    ensures MatchLine(line) == ReadAfterColon(line[..w], line[w + 1..])
  {
  }

  lemma MatchAt(w: string, rest: string, line: string)
    requires w != "" && line == w + ([':'] + rest) && WordLength(line) == |w|
    ensures MatchLine(line) == ReadAfterColon(w, rest)
  {
    Slices(w, ':', rest, line);
    MatchAtColon(line, |w|);
  }

  lemma LastSingleLine(s: string)
    requires SingleLine(s) && s != ""
    ensures !IsLineTerminator(s[|s| - 1])
  {
  }

  lemma TrimStartSingleLine(s: string)
    requires SingleLine(s)
    ensures SingleLine(TrimStart(s))
  {
    SuffixSingleLine(s, |s| - |TrimStart(s)|);
  }

  lemma MatchRest(w: string, rest: string, line: string)
    requires w != "" && forall c :: c in w ==> IsWord(c)
    requires line == w + ([':'] + rest) && rest != "" && SingleLine(rest)
    ensures MatchLine(line) == Some(Entry(w, Trim(rest)))
  {
    WordLengthOf(w, [':'] + rest);
    MatchAt(w, rest, line);
    TrimStartSingleLine(rest);
    TrimBlank(rest);
    LastSingleLine(rest);
    ValueRead(w, rest, TrimStart(rest), Trim(rest));
  }

  lemma ValueRead(w: string, rest: string, value: string, trimmed: string)
    requires SingleLine(value) && rest != "" && !IsLineTerminator(rest[|rest| - 1])
    requires value == "" <==> trimmed == ""
    ensures ReadValue(w, rest, value, trimmed) == Some(Entry(w, trimmed))
  {
  }

  lemma ColonBlank(w: string, text: string)
    ensures w + ": " + text == w + ([':'] + (" " + text))
  {
  }

  lemma BlankBefore(text: string, blank: string)
    requires SingleLine(text) && AllSpace(blank) && SingleLine(blank)
    ensures SingleLine(blank + text) && Trim(blank + text) == Trim(text)
  {
    TrimStartSkips(blank, text);
    SingleLineAppend(blank, text);
  }

  /** A printed single-line pair is one the reader's expression matches, with its value trimmed. */
  lemma PrintedLineMatches(w: string, text: string)
    requires w != "" && forall c :: c in w ==> IsWord(c)
    requires SingleLine(text)
    ensures MatchLine(w + ": " + text) == Some(Entry(w, Trim(text)))
  {
    BlankBefore(text, " ");
    ColonBlank(w, text);
    MatchRest(w, " " + text, w + ": " + text);
  }

  /** The pairs folded as the reader folds the lines they print. */
  ghost function ReadPairs(trim: string -> string, items: string -> seq<string>, ps: seq<Pair>): Metadata {
    if ps == [] then NO_METADATA
    else Assign(items, ReadPairs(trim, items, ps[..|ps| - 1]), ps[|ps| - 1].key, trim(ps[|ps| - 1].text))
  }

  lemma ReadPairsPush(trim: string -> string, items: string -> seq<string>, ps: seq<Pair>, p: Pair)
    ensures ReadPairs(trim, items, ps + [p]) == Assign(items, ReadPairs(trim, items, ps), p.key, trim(p.text))
  {
    assert (ps + [p])[..|ps + [p]| - 1] == ps;
  }

  lemma ReadPrintedLine(m: Metadata, p: Pair)
    requires SingleLine(p.text)
    ensures ReadLine(m, LineOf(p)) == Assign(Items, m, p.key, Trim(p.text))
  {
    KeyTextIsWord(p.key);
    PrintedLineMatches(KeyText(p.key), p.text);
  }

  lemma {:induction false} ReadPrintedLines(ps: seq<Pair>)
    requires forall p :: p in ps ==> SingleLine(p.text)
    ensures ReadLines(LinesOf(ps)) == ReadPairs(Trim, Items, ps)
  {
    if ps == [] {
    } else {
      var init, last := ps[..|ps| - 1], ps[|ps| - 1];
      assert last in ps;
      ReadPrintedLines(init);
      assert LinesOf(ps)[..|ps| - 1] == LinesOf(init);
      ReadPrintedLine(ReadPairs(Trim, Items, init), last);
    }
  }

  // ------------------------------------------------------------------ fences

  /** Text that holds no closing fence and cannot begin one at its end. */
  ghost predicate NoFence(s: string) {
    forall j :: 0 <= j < |s| && s[j] == '\n' ==> j + 1 < |s| && s[j + 1] != '-'
  }

  lemma {:induction false} FindCloseAt(s: string, i: nat, c: nat, whole: bool)
    requires i <= c && Closes(s, c, whole)
    requires forall j :: i <= j < c ==> !FenceAt(s, j)
    ensures FindClose(s, i, whole) == Some(c)
    decreases c - i
  {
    if i < c {
      FindCloseAt(s, i + 1, c, whole);
    }
  }

  ghost function Fenced(front: string, content: string): string {
    "---" + "\n" + front + "\n" + ("---" + "\n" + ("" + "\n" + content))
  }

  lemma FencedAt(front: string, content: string)
    ensures var s := Fenced(front, content); var c := 4 + |front|;
            && |s| == 10 + |front| + |content|
            && s[0] == '-' && s[1] == '-' && s[2] == '-' && s[3] == '\n'
            && s[4..c] == front && FenceAt(s, c)
            && s[c + 4..] == "\n\n" + content
  {
  }

  lemma FenceFree(s: string, front: string)
    requires |s| >= 4 + |front| && s[4..4 + |front|] == front && NoFence(front)
    ensures forall j :: 4 <= j < 4 + |front| ==> !FenceAt(s, j)
  {
    forall j | 4 <= j < 4 + |front| ensures !FenceAt(s, j) {
      assert s[j] == front[j - 4];
      if front[j - 4] == '\n' {
        assert s[j + 1] == front[j - 3];
      }
    }
  }

  lemma {:induction false} RunEndIs(s: string, i: nat, e: nat)
    requires i <= e <= |s| && (e == |s| || !IsSpace(s[e]))
    requires forall j :: i <= j < e ==> IsSpace(s[j])
    ensures RunEnd(s, i) == e
    decreases e - i
  {
    if i < e {
      RunEndIs(s, i + 1, e);
    }
  }

  /** Frontmatter that is found is exactly the text between the fences. */
  lemma FencedMatches(front: string, content: string, whole: bool)
    requires front != "" && !IsSpace(front[0]) && NoFence(front)
    ensures MatchFront(Fenced(front, content), whole) == Some(Span(4, 4 + |front|))
  {
    var s := Fenced(front, content);
    var c := 4 + |front|;
    FencedAt(front, content);
    FenceFree(s, front);
    assert s[4] == s[4..c][0];
    RunEndIs(s, 3, 4);
    var e := RunEnd(s, c + 4);
    assert s[c + 4] == s[c + 4..][0] == '\n';
    assert e > c + 4;
    assert s[c + 4..e][0] == '\n';
    FindCloseAt(s, 4, c, whole);
  }

  lemma StrippedBody(front: string, content: string)
    requires front != "" && !IsSpace(front[0]) && NoFence(front)
    ensures RemoveFrontmatter(Fenced(front, content)) == Trim(content)
  {
    FencedMatches(front, content, true);
    FencedAt(front, content);
    TrimStartSkips("\n\n", content);
  }

  // ----------------------------------------------------------- printed text

  lemma JoinOfThree(x: string, y: string, z: string, sep: string)
    ensures Join([x, y, z], sep) == x + sep + (y + sep + z)
  {
    assert [x, y, z][1..] == [y, z];
    assert [y, z][1..] == [z];
    assert Join([y, z], sep) == y + sep + z;
  }

  lemma JoinFenced(fence: string, lines: seq<string>, blank: string, content: string, sep: string)
    requires lines != []
    ensures Join([fence] + lines + [fence, blank, content], sep) ==
            fence + sep + Join(lines, sep) + sep + (fence + sep + (blank + sep + content))
  {
    JoinAppend([fence] + lines, [fence, blank, content], sep);
    JoinAppend([fence], lines, sep);
    JoinOfThree(fence, blank, content, sep);
    assert Join([fence], sep) == fence;
  }

  lemma PrintedIsFenced(m: Metadata, content: string)
    ensures ClaudeFormat(m, content) == Fenced(Frontmatter(m), content)
  {
    PairsStart(m);
    JoinFenced("---", LinesOf(Pairs(m)), "", content, "\n");
  }

  lemma PairsStart(m: Metadata)
    ensures Pairs(m) != [] && Pairs(m)[0] == Pair(Name, Show(m.name))
  {
  }

  /** Lines that begin with a word can be joined without making a fence. */
  lemma {:induction false} JoinedHasNoFence(lines: seq<string>)
    requires forall l :: l in lines ==> l != "" && '\n' !in l && IsWord(l[0])
    ensures NoFence(Join(lines, "\n"))
    ensures lines != [] ==> lines[0] <= Join(lines, "\n")
  {
    if |lines| == 1 {
      assert lines[0] in lines;
    } else if |lines| > 1 {
      assert lines[0] in lines && lines[1] in lines;
      var rest := Join(lines[1..], "\n");
      assert forall l :: l in lines[1..] ==> l in lines;
      JoinedHasNoFence(lines[1..]);
      var s := lines[0] + "\n" + rest;
      forall j | 0 <= j < |s| && s[j] == '\n' ensures j + 1 < |s| && s[j + 1] != '-' {
        assert j >= |lines[0]| by {
          if j < |lines[0]| {
            assert false;
          }
        }
        if j > |lines[0]| {
          assert s[j] == rest[j - |lines[0]| - 1];
        }
      }
    }
  }

  lemma LineIsPlain(p: Pair)
    requires SingleLine(p.text)
    ensures LineOf(p) != "" && '\n' !in LineOf(p) && IsWord(LineOf(p)[0])
  {
    KeyTextIsWord(p.key);
    assert LineOf(p)[0] == KeyText(p.key)[0] && KeyText(p.key)[0] in KeyText(p.key);
  }

  lemma LinesArePlain(ps: seq<Pair>)
    requires forall p :: p in ps ==> SingleLine(p.text)
    ensures forall l :: l in LinesOf(ps) ==> l != "" && '\n' !in l && IsWord(l[0])
  {
    forall i | 0 <= i < |ps| ensures LinesOf(ps)[i] != "" && '\n' !in LinesOf(ps)[i] && IsWord(LinesOf(ps)[i][0]) {
      LineIsPlain(ps[i]);
    }
  }

  // ------------------------------------------------------------- round trip

  ghost predicate PlainText(v: Option<string>) {
    v.Some? ==> SingleLine(v.value)
  }

  ghost predicate PlainList(v: Option<seq<string>>) {
    v.Some? ==> forall x :: x in v.value ==> SingleLine(x)
  }

  /** No value holds a line terminator. */
  ghost predicate Plain(m: Metadata) {
    && PlainText(m.name) && PlainText(m.description) && PlainText(m.model) && PlainList(m.tools)
    && PlainText(m.category) && PlainText(m.version) && PlainList(m.dependencies)
  }

  ghost function TextBack(trim: string -> string, v: Option<string>): Option<string> {
    if Truthy(v) then Some(trim(v.value)) else None
  }

  ghost function ListBack(items: string -> seq<string>, v: Option<seq<string>>): Option<seq<string>> {
    if Listed(v) then Some(FlatMap(items, v.value)) else None
  }

  /** What printing and reading leaves of metadata, for any way to trim and to cut. */
  ghost function Back(trim: string -> string, items: string -> seq<string>, m: Metadata): Metadata {
    Metadata(Some(trim(Show(m.name))), Some(trim(Show(m.description))), TextBack(trim, m.model),
             ListBack(items, m.tools), TextBack(trim, m.category), TextBack(trim, m.version),
             ListBack(items, m.dependencies))
  }

  /** What printing and reading leaves of metadata: each text trimmed, each list item cut at its commas. */
  ghost function ReadBack(m: Metadata): Metadata {
    Back(Trim, Items, m)
  }

  lemma WithTextBack(trim: string -> string, items: string -> seq<string>, ps: seq<Pair>, k: Key, v: Option<string>)
    ensures var m := ReadPairs(trim, items, ps);
            ReadPairs(trim, items, WithText(ps, k, v)) == if Truthy(v) then Assign(items, m, k, trim(v.value)) else m
  {
    if Truthy(v) {
      ReadPairsPush(trim, items, ps, Pair(k, v.value));
    }
  }

  lemma WithListBack(trim: string -> string, items: string -> seq<string>, ps: seq<Pair>, k: Key,
                     v: Option<seq<string>>)
    ensures var m := ReadPairs(trim, items, ps);
            ReadPairs(trim, items, WithList(ps, k, v)) ==
            if Listed(v) then Assign(items, m, k, trim(Join(v.value, ", "))) else m
  {
    if Listed(v) {
      ReadPairsPush(trim, items, ps, Pair(k, Join(v.value, ", ")));
    }
  }

  lemma RequiredReadBack(trim: string -> string, items: string -> seq<string>, p: Pair, q: Pair)
    ensures ReadPairs(trim, items, [p] + [q]) ==
            Assign(items, Assign(items, NO_METADATA, p.key, trim(p.text)), q.key, trim(q.text))
  {
    ReadPairsPush(trim, items, [], p);
    AppendNothing([p]);
    ReadPairsPush(trim, items, [p], q);
  }

  /** The fold over the printed pairs, for any way to trim and to cut. */
  lemma FoldPairs(trim: string -> string, items: string -> seq<string>, m: Metadata)
    ensures ReadPairs(trim, items, Pairs(m)) ==
            Metadata(Some(trim(Show(m.name))), Some(trim(Show(m.description))),
                     if Truthy(m.model) then Some(trim(m.model.value)) else None,
                     if Listed(m.tools) then Some(items(trim(Join(m.tools.value, ", ")))) else None,
                     if Truthy(m.category) then Some(trim(m.category.value)) else None,
                     if Truthy(m.version) then Some(trim(m.version.value)) else None,
                     if Listed(m.dependencies) then Some(items(trim(Join(m.dependencies.value, ", ")))) else None)
  {
    RequiredReadBack(trim, items, Pair(Name, Show(m.name)), Pair(Description, Show(m.description)));
    var p2 := [Pair(Name, Show(m.name))] + [Pair(Description, Show(m.description))];
    WithTextBack(trim, items, p2, Model, m.model);
    var p3 := WithText(p2, Model, m.model);
    WithListBack(trim, items, p3, Tools, m.tools);
    var p4 := WithList(p3, Tools, m.tools);
    WithTextBack(trim, items, p4, Category, m.category);
    var p5 := WithText(p4, Category, m.category);
    WithTextBack(trim, items, p5, Version, m.version);
    WithListBack(trim, items, WithText(p5, Version, m.version), Dependencies, m.dependencies);
  }

  lemma PairsReadBack(m: Metadata)
    ensures ReadPairs(Trim, Items, Pairs(m)) == ReadBack(m)
  {
    FoldPairs(Trim, Items, m);
    if Listed(m.tools) {
      ListReadsBack(m.tools.value);
    }
    if Listed(m.dependencies) {
      ListReadsBack(m.dependencies.value);
    }
  }

  lemma WithPlain(ps: seq<Pair>, k: Key, v: Option<string>, w: Option<seq<string>>)
    requires forall p :: p in ps ==> SingleLine(p.text)
    ensures PlainText(v) ==> forall p :: p in WithText(ps, k, v) ==> SingleLine(p.text)
    ensures PlainList(w) ==> forall p :: p in WithList(ps, k, w) ==> SingleLine(p.text)
  {
    if Listed(w) && PlainList(w) {
      JoinSingleLine(w.value);
    }
  }

  lemma PairsArePlain(m: Metadata)
    requires Plain(m)
    ensures forall p :: p in Pairs(m) ==> SingleLine(p.text)
  {
    var p2 := [Pair(Name, Show(m.name))] + [Pair(Description, Show(m.description))];
    WithPlain(p2, Model, m.model, None);
    var p3 := WithText(p2, Model, m.model);
    WithPlain(p3, Tools, None, m.tools);
    var p4 := WithList(p3, Tools, m.tools);
    WithPlain(p4, Category, m.category, None);
    var p5 := WithText(p4, Category, m.category);
    WithPlain(p5, Version, m.version, None);
    WithPlain(WithText(p5, Version, m.version), Dependencies, None, m.dependencies);
  }

  lemma JoinedPairsArePlain(ps: seq<Pair>, front: string)
    requires ps != [] && front == Join(LinesOf(ps), "\n") && forall p :: p in ps ==> SingleLine(p.text)
    ensures front != "" && !IsSpace(front[0]) && NoFence(front) && Lines(front) == LinesOf(ps)
  {
    LinesArePlain(ps);
    var lines := LinesOf(ps);
    assert lines[0] in lines;
    JoinedHasNoFence(lines);
    assert front[0] == lines[0][0];
    SplitJoin(lines, '\n');
  }

  lemma FrontmatterIsPlain(m: Metadata)
    requires Plain(m)
    ensures Frontmatter(m) != "" && !IsSpace(Frontmatter(m)[0]) && NoFence(Frontmatter(m))
    ensures Lines(Frontmatter(m)) == LinesOf(Pairs(m))
  {
    PairsArePlain(m);
    PairsStart(m);
    JoinedPairsArePlain(Pairs(m), Frontmatter(m));
  }

  /** Printing and reading back trims every value, cuts lists at commas, drops what is empty, and trims the body. */
  lemma PrintedReadsBack(m: Metadata, content: string)
    requires Plain(m)
    ensures Parse(ClaudeFormat(m, content)) == ReadBack(m)
    ensures RemoveFrontmatter(ClaudeFormat(m, content)) == Trim(content)
  {
    var front := Frontmatter(m);
    PrintedIsFenced(m, content);
    FrontmatterIsPlain(m);
    FencedMatches(front, content, false);
    FencedAt(front, content);
    StrippedBody(front, content);
    PairsArePlain(m);
    ReadPrintedLines(Pairs(m));
    PairsReadBack(m);
  }

  // ------------------------------------------------------ what reading yields

  predicate CleanText(s: string) {
    Trimmed(s) && SingleLine(s)
  }

  predicate CleanList(items: seq<string>) {
    items != [] && forall x :: x in items ==> CleanText(x) && ',' !in x
  }

  /** Metadata all of whose texts and lists have a property. */
  predicate Throughout(m: Metadata, text: string -> bool, list: seq<string> -> bool) {
    && (m.name.Some? ==> text(m.name.value))
    && (m.description.Some? ==> text(m.description.value))
    && (m.model.Some? ==> text(m.model.value))
    && (m.tools.Some? ==> list(m.tools.value))
    && (m.category.Some? ==> text(m.category.value))
    && (m.version.Some? ==> text(m.version.value))
    && (m.dependencies.Some? ==> list(m.dependencies.value))
  }

  /** Metadata the reader can produce. */
  predicate Clean(m: Metadata) {
    Throughout(m, CleanText, CleanList)
  }

  lemma ReadAfterIsClean(word: string, rest: string)
    requires ReadAfterColon(word, rest).Some?
    ensures CleanText(ReadAfterColon(word, rest).value.value)
  {
    TrimIsTrimmed(rest);
    TrimEndPrefix(TrimStart(rest));
  }

  lemma MatchedIsClean(line: string)
    requires MatchLine(line).Some?
    ensures CleanText(MatchLine(line).value.value)
  {
    var w := WordLength(line);
    WordEndsAtColon(line);
    MatchAtColon(line, w);
    ReadAfterIsClean(line[..w], line[w + 1..]);
  }

  lemma WordEndsAtColon(line: string)
    requires MatchLine(line).Some?
    ensures var w := WordLength(line); 0 < w < |line| && line[w] == ':'
  {
  }

  lemma ItemsAreClean(value: string)
    requires CleanText(value)
    ensures CleanList(Items(value))
  {
    var parts := Split(value, ',');
    SplitWithin(value, ',');
    forall i | 0 <= i < |parts| ensures CleanText(Trim(parts[i])) && ',' !in Trim(parts[i]) {
      TrimIsTrimmed(parts[i]);
      assert parts[i] in parts;
    }
  }

  lemma {:induction false} SplitWithin(s: string, c: char)
    ensures forall l, x :: l in Split(s, c) && x in l ==> x in s
    decreases |s|
  {
    if c in s {
      var i := IndexOf(s, c);
      SplitWithin(s[i + 1..], c);
    }
  }

  lemma AssignKeeps(text: string -> bool, list: seq<string> -> bool, items: string -> seq<string>, m: Metadata, k: Key,
                    value: string)
    requires Throughout(m, text, list) && text(value) && list(items(value))
    ensures Throughout(Assign(items, m, k, value), text, list)
  {
    match k {
      case Name =>
      case Description =>
      case Model =>
      case Tools =>
      case Category =>
      case Version =>
      case Dependencies =>
    }
  }

  lemma AssignKeepsClean(m: Metadata, k: Key, value: string)
    requires Clean(m) && CleanText(value)
    ensures Clean(Assign(Items, m, k, value))
  {
    ItemsAreClean(value);
    AssignKeeps(CleanText, CleanList, Items, m, k, value);
  }

  lemma {:induction false} ReadLinesIsClean(lines: seq<string>)
    ensures Clean(ReadLines(lines))
  {
    if lines == [] {
    } else {
      ReadLinesIsClean(lines[..|lines| - 1]);
      var line := lines[|lines| - 1];
      if MatchLine(line).Some? {
        MatchedIsClean(line);
        var e := MatchLine(line).value;
        if KeyOf(e.word).Some? {
          AssignKeepsClean(ReadLines(lines[..|lines| - 1]), KeyOf(e.word).value, e.value);
        }
      }
    }
  }

  /** Whatever the text, the reader yields trimmed single-line values and non-empty lists of comma-free items. */
  lemma ParsedIsClean(text: string)
    ensures Clean(Parse(text))
  {
    var found := MatchFront(text, false);
    if found.Some? {
      ReadLinesIsClean(Lines(text[found.value.start..found.value.end]));
    }
  }

  // ------------------------------------------------------------- exactness

  /** Name and description present, and nothing empty that is printed only when it is not. */
  predicate Present(m: Metadata) {
    m.name.Some? && m.description.Some? && m.model != Some("") && m.category != Some("") && m.version != Some("")
  }

  lemma CleanItem(x: string)
    requires CleanText(x) && ',' !in x
    ensures Items(x) == [x]
  {
    TrimIsTrimmed(x);
  }

  lemma {:induction false} SingletonsStay(items: string -> seq<string>, s: seq<string>)
    requires forall x :: x in s ==> items(x) == [x]
    ensures FlatMap(items, s) == s
  {
    if s == [] {
    } else {
      var init, last := s[..|s| - 1], s[|s| - 1];
      SingletonsStay(items, init);
      assert last in s;
      assert s == init + [last];
    }
  }

  ghost predicate TextKept(trim: string -> string, v: Option<string>) {
    v.Some? ==> trim(v.value) == v.value
  }

  ghost predicate ListKept(items: string -> seq<string>, v: Option<seq<string>>) {
    v.Some? ==> v.value != [] && FlatMap(items, v.value) == v.value
  }

  ghost predicate Kept(trim: string -> string, items: string -> seq<string>, m: Metadata) {
    && TextKept(trim, m.name) && TextKept(trim, m.description) && TextKept(trim, m.model) && ListKept(items, m.tools)
    && TextKept(trim, m.category) && TextKept(trim, m.version) && ListKept(items, m.dependencies)
  }

  lemma KeptStaysIfPresent(trim: string -> string, items: string -> seq<string>, m: Metadata)
    requires Kept(trim, items, m)
    ensures Back(trim, items, m) == m <==> Present(m)
  {
  }

  lemma CleanTextKept(v: Option<string>)
    requires v.Some? ==> CleanText(v.value)
    ensures TextKept(Trim, v)
  {
    if v.Some? {
      TrimIsTrimmed(v.value);
    }
  }

  lemma CleanListKept(v: Option<seq<string>>)
    requires v.Some? ==> CleanList(v.value)
    ensures ListKept(Items, v)
  {
    if v.Some? {
      forall x | x in v.value ensures Items(x) == [x] {
        CleanItem(x);
      }
      SingletonsStay(Items, v.value);
    }
  }

  lemma CleanStaysIfPresent(m: Metadata)
    requires Clean(m)
    ensures ReadBack(m) == m <==> Present(m)
  {
    CleanTextKept(m.name);
    CleanTextKept(m.description);
    CleanTextKept(m.model);
    CleanListKept(m.tools);
    CleanTextKept(m.category);
    CleanTextKept(m.version);
    CleanListKept(m.dependencies);
    KeptStaysIfPresent(Trim, Items, m);
  }

  lemma CleanIsPlain(m: Metadata)
    requires Clean(m)
    ensures Plain(m)
  {
  }

  /** Printing an agent and parsing it gives back its metadata exactly when that is clean and all of it is printed. */
  lemma RoundTripExactly(m: Metadata, content: string)
    ensures Parse(ClaudeFormat(m, content)) == m <==> Clean(m) && Present(m)
  {
    if Clean(m) {
      CleanIsPlain(m);
      PrintedReadsBack(m, content);
      CleanStaysIfPresent(m);
    } else {
      ParsedIsClean(ClaudeFormat(m, content));
    }
  }

  lemma LoadedIsClean(base: string, text: string)
    requires CleanText(base) && base != ""
    ensures Clean(Load(base, text).metadata) && Truthy(Load(base, text).metadata.name)
  {
    ParsedIsClean(text);
  }

  lemma LoadPrinted(base: string, a: Agent)
    requires Clean(a.metadata) && Truthy(a.metadata.name)
    ensures Load(base, ClaudeFormat(a.metadata, a.content)) == Agent(ReadBack(a.metadata), Trim(a.content))
  {
    CleanIsPlain(a.metadata);
    PrintedReadsBack(a.metadata, a.content);
    CleanTextKept(a.metadata.name);
  }

  /**
   * An agent loaded from any file, printed and loaded again, is the same agent exactly when it has a
   * description, no optional text of it is empty, and its body is trimmed.
   */
  lemma ReloadExactly(base: string, text: string, base2: string, a: Agent)
    requires CleanText(base) && base != "" && a == Load(base, text)
    ensures Load(base2, ClaudeFormat(a.metadata, a.content)) == a <==> Present(a.metadata) && Trimmed(a.content)
  {
    LoadedIsClean(base, text);
    LoadPrinted(base2, a);
    CleanStaysIfPresent(a.metadata);
    TrimIsTrimmed(a.content);
  }
}
