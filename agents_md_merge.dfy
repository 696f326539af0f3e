/**
 * Merging the skills section into AGENTS.md and removing it
 * (lib/utils/agents-md.js, `replaceSkillsSection` and `removeSkillsSection`):
 * what each of the three branches leaves of the document, when a second run
 * changes nothing, and where it does not.
 */
module AgentsMdMerge {
  import opened Wrappers
  import opened Text
  import opened Skills
  import opened AgentsMd
  import opened AgentsMdTokens
  import AgentsMdRoundTrip

  // ---------------------------------------------------------------------
  // Occurrences of a marker next to others
  // ---------------------------------------------------------------------

  /** A marker followed by anything is first found where it is put after text that lacks it. */
  lemma IndexOfFirst(a: string, pat: string, b: string)
    requires TagLike(pat) && !Contains(a, pat)
    ensures IndexOf(a + (pat + b), pat) == Some(|a|)
  {
    var s := a + (pat + b);
    SafeSeamBridge(a, pat + b, pat);
    NoStartInPrefix(a, pat + b, pat);
    assert s[|a|..][..|pat|] == pat;
    IndexOfLeftmost(s, pat, |a|);
  }

  /** The pieces around a marker lack whatever the whole text lacks. */
  lemma PiecesLack(a: string, t: string, b: string, pat: string)
    requires !Contains(a + t + b, pat)
    ensures !Contains(a, pat) && !Contains(b, pat)
  {
    var s := a + t + b;
    LacksPrefix(s, pat, |a|);
    assert s[..|a|] == a;
    LacksSuffix(s, pat, |a + t|);
    assert s[|a + t|..] == b;
  }

  // ---------------------------------------------------------------------
  // The outer branch: /<skills_system[^>]*>[\s\S]*?<\/skills_system>/
  // ---------------------------------------------------------------------

  /** A section in the sense of the outer pattern: anchored at its start, the pattern spans all of it. */
  predicate IsSection(x: string) {
    SectionAt(x) == Some(|x|)
  }

  /** Text after a complete opening tag does not move its end. */
  lemma OpenTagAtPrefix(x: string, y: string)
    requires OpenTagAt(x).Some?
    ensures OpenTagAt(x + y) == OpenTagAt(x)
  {
    assert (x + y)[..|SectionOpen|] == x[..|SectionOpen|];
    assert (x + y)[|SectionOpen|..] == x[|SectionOpen|..] + y;
    IndexOfPrefix(x[|SectionOpen|..], y, ">");
  }

  /** The outer pattern read off from the end of its opening tag and the first closing tag after it. */
  lemma SectionAtOf(s: string, q: nat, k: nat)
    requires OpenTagAt(s) == Some(q) && IndexOf(s[q..], SectionClose) == Some(k)
    ensures SectionAt(s).Some? && SectionAt(s).value == q + k + |SectionClose|
  {
  }

  lemma DropFromConcat(x: string, y: string, q: nat)
    requires q <= |x|
    ensures (x + y)[q..] == x[q..] + y
  {
  }

  /** Text after a complete match of the outer pattern does not change the match. */
  lemma SectionAtPrefix(x: string, y: string)
    requires SectionAt(x).Some?
    ensures SectionAt(x + y) == SectionAt(x)
  {
    var q := OpenTagAt(x).value;
    var k := IndexOf(x[q..], SectionClose).value;
    SectionAtOf(x, q, k);
    OpenTagAtPrefix(x, y);
    DropFromConcat(x, y, q);
    IndexOfPrefix(x[q..], y, SectionClose);
    SectionAtOf(x + y, q, k);
  }

  /** Without a closing tag anywhere the outer pattern matches nowhere. */
  lemma NoCloseNoSectionAt(s: string)
    requires !Contains(s, SectionClose)
    ensures SectionAt(s).None?
  {
    if OpenTagAt(s).Some? {
      LacksSuffix(s, SectionClose, OpenTagAt(s).value);
    }
  }

  lemma NoCloseNoSpan(content: string)
    requires !Contains(content, SectionClose)
    ensures SectionSpan(content).None?
  {
    forall i | 0 <= i <= |content| ensures MatchFrom<nat>(content, SectionAt, i).None? {
      LacksSuffix(content, SectionClose, i);
      NoCloseNoSectionAt(content[i..]);
    }
  }

  /** A span of the outer pattern starts with the opening marker, so the document holds it. */
  lemma SpanHasOpen(content: string)
    requires SectionSpan(content).Some?
    ensures Contains(content, SectionOpen)
  {
    SectionSpanLeftmost(content);
    assert OccursAt(content, SectionOpen, SectionSpan(content).value.start);
  }

  /**
   * An opening marker at `i`, ending before a complete opening tag at `st`,
   * finds its `>` no later than that tag's.
   */
  lemma OpenTagBefore(s: string, i: nat, st: nat)
    requires i + |SectionOpen| <= st <= |s| && OpenTagAt(s[st..]).Some? && OccursAt(s, SectionOpen, i)
    ensures OpenTagAt(s[i..]).Some? && i + OpenTagAt(s[i..]).value <= st + OpenTagAt(s[st..]).value
  {
    var u := s[i..];
    var w := u[|SectionOpen|..];
    var qv := OpenTagAt(s[st..]).value;
    var g := st + qv - 1 - i - |SectionOpen|;
    assert w[g] == s[st..][qv - 1];
    assert w[g..][..1] == ">";
    assert OccursAt(w, ">", g);
  }

  /** An opening tag ending before the opening tag of a match is closed by that match's closing tag at the latest. */
  lemma CloseBefore(s: string, i: nat, st: nat)
    requires i <= st <= |s| && SectionAt(s[st..]).Some? && OpenTagAt(s[i..]).Some?
    requires i + OpenTagAt(s[i..]).value <= st + OpenTagAt(s[st..]).value
    ensures SectionAt(s[i..]).Some?
  {
    var v := s[st..];
    var ev := SectionAt(v).value;
    var qu := OpenTagAt(s[i..]).value;
    var qv := OpenTagAt(v).value;
    assert qv + |SectionClose| <= ev <= |v|;
    assert v[ev - |SectionClose|..ev] == SectionClose;
    var e := st + ev - |SectionClose|;
    assert i + qu <= e;
    EndingInSuffix(s, st, v, ev, SectionClose);
    CloseAfterTag(s, i, qu, e);
  }

  /** An opening tag at `i`, ending at or before a closing tag at `e`, starts a match. */
  lemma CloseAfterTag(s: string, i: nat, qu: nat, e: nat)
    requires i <= |s| && OpenTagAt(s[i..]) == Some(qu) && i + qu <= e
    requires e + |SectionClose| <= |s| && s[e..e + |SectionClose|] == SectionClose
    ensures SectionAt(s[i..]).Some?
  {
    OccursFromStretch(s, i + qu, e, SectionClose);
    assert s[i..][qu..] == s[i + qu..];
    SectionAtOfClose(s[i..], qu, e - i - qu);
  }

  /** An opening tag followed, somewhere, by a closing tag starts a match of the outer pattern. */
  lemma SectionAtOfClose(w: string, q: nat, c: nat)
    requires OpenTagAt(w) == Some(q) && OccursAt(w[q..], SectionClose, c)
    ensures SectionAt(w).Some?
  {
    assert IndexOf(w[q..], SectionClose).Some?;
    SectionAtOf(w, q, IndexOf(w[q..], SectionClose).value);
  }

  /** A suffix of `s` from `st` that ends, at `ev`, with `pat` puts `pat` at the same place in `s`. */
  lemma EndingInSuffix(s: string, st: nat, v: string, ev: nat, pat: string)
    requires st <= |s| && v == s[st..] && |pat| <= ev <= |v| && v[ev - |pat|..ev] == pat
    ensures st + ev <= |s| && s[st + ev - |pat|..st + ev] == pat
  {
    assert s[st + ev - |pat|..st + ev] == v[ev - |pat|..ev];
  }

  /** A stretch of `s` at `e` that is `pat` is an occurrence in the suffix of `s` from any `a <= e`. */
  lemma OccursFromStretch(s: string, a: nat, e: nat, pat: string)
    requires a <= e && e + |pat| <= |s| && s[e..e + |pat|] == pat
    ensures OccursAt(s[a..], pat, e - a)
  {
    assert s[a..][e - a..][..|pat|] == s[e..e + |pat|];
  }

  /** An opening marker that ends before a match of the outer pattern starts a match itself. */
  lemma OpenBefore(s: string, i: nat, st: nat)
    requires i + |SectionOpen| <= st <= |s| && SectionAt(s[st..]).Some?
    ensures OccursAt(s, SectionOpen, i) ==> SectionAt(s[i..]).Some?
  {
    if OccursAt(s, SectionOpen, i) {
      OpenTagBefore(s, i, st);
      CloseBefore(s, i, st);
    }
  }

  /** No opening marker starts at `i` before a match at `st` when none of the pattern starts at `i`. */
  lemma NoOpenBefore(s: string, i: nat, st: nat)
    requires i <= st <= |s| && SectionAt(s[st..]).Some? && SectionAt(s[i..]).None?
    ensures !OccursAt(s[..st], SectionOpen, i)
  {
    if i + |SectionOpen| <= st {
      OpenBefore(s, i, st);
      assert s[..st][i..][..|SectionOpen|] == s[i..][..|SectionOpen|];
    }
  }

  /** The text before the first span holds no opening marker: each one would have started a match. */
  lemma PrefixLacksOpen(content: string)
    requires SectionSpan(content).Some?
    ensures !Contains(content[..SectionSpan(content).value.start], SectionOpen)
  {
    var st := SectionSpan(content).value.start;
    SectionSpanLeftmost(content);
    forall i | 0 <= i <= st ensures !OccursAt(content[..st], SectionOpen, i) {
      if i < st {
        assert MatchFrom<nat>(content, SectionAt, i).None?;
        NoOpenBefore(content, i, st);
      }
    }
  }

  /**
   * Outer branch: the first `<skills_system…>…</skills_system>` span is
   * replaced by the new section (by the removal note for `removeSkillsSection`)
   * and the text before and after it is kept as it was.
   */
  lemma OuterReplace(content: string, newSection: string)
    requires SectionSpan(content).Some?
    ensures var sp := SectionSpan(content).value;
      && ReplaceSkillsSection(content, newSection) == content[..sp.start] + newSection + content[sp.end..]
      && RemoveSkillsSection(content) == content[..sp.start] + RemovedNote + content[sp.end..]
  {
    SpanHasOpen(content);
  }

  /**
   * Outer branch without a closing tag: the pattern does not match, and
   * neither function falls through to another branch; the document comes back
   * unchanged.
   */
  lemma OuterWithoutClose(content: string, newSection: string)
    requires Contains(content, SectionOpen) && !Contains(content, SectionClose)
    ensures ReplaceSkillsSection(content, newSection) == content
    ensures RemoveSkillsSection(content) == content
  {
    NoCloseNoSpan(content);
  }

  // ---------------------------------------------------------------------
  // Running the outer branch again
  // ---------------------------------------------------------------------

  /** Text free of the opening marker, followed by text that starts with `<`, holds no match of the outer pattern. */
  lemma NoSpanInPrefix(a: string, y: string, r: string)
    requires !Contains(a, SectionOpen) && |y| > 0 && y[0] == '<' && r == a + y
    ensures forall i :: 0 <= i < |a| ==> MatchFrom<nat>(r, SectionAt, i).None?
  {
    SectionOpenTagLike();
    SafeSeamBridge(a, y, SectionOpen);
    NoStartInPrefix(a, y, SectionOpen);
    forall i | 0 <= i < |a| ensures MatchFrom<nat>(r, SectionAt, i).None? {
      assert !OccursAt(r, SectionOpen, i);
    }
  }

  /** A section followed by any text matches the outer pattern over the section alone. */
  lemma SectionThenText(a: string, ns: string, b: string, r: string)
    requires IsSection(ns) && r == a + (ns + b)
    ensures MatchFrom<nat>(r, SectionAt, |a|) == Some(|ns|)
  {
    assert r[|a|..] == ns + b;
    SectionAtPrefix(ns, b);
  }

  /** After text free of the opening marker, a section is the first span of the outer pattern. */
  lemma SpanAfter(a: string, ns: string, b: string, r: string)
    requires IsSection(ns) && !Contains(a, SectionOpen) && r == a + (ns + b)
    ensures SectionSpan(r).Some? && SectionSpan(r).value.start == |a| && SectionSpan(r).value.end == |a| + |ns|
  {
    assert ns[0] == SectionOpen[0];
    NoSpanInPrefix(a, ns + b, r);
    SectionThenText(a, ns, b, r);
    SpanAt(r, |a|, |ns|);
  }

  /** A match at `k` with none earlier is the span the outer pattern finds. */
  lemma SpanAt(s: string, k: nat, n: nat)
    requires k <= |s| && MatchFrom<nat>(s, SectionAt, k) == Some(n)
    requires forall i :: 0 <= i < k ==> MatchFrom<nat>(s, SectionAt, i).None?
    ensures SectionSpan(s).Some? && SectionSpan(s).value.start == k && SectionSpan(s).value.end == k + n
  {
    LeftmostAt<nat>(s, SectionAt, k, n);
  }

  /**
   * A document holding a section after text free of the opening marker: a
   * second run with the same section gives the same document back, and
   * removal swaps the section for the note.
   */
  lemma ReplaceAgain(a: string, ns: string, b: string, r: string)
    requires IsSection(ns) && !Contains(a, SectionOpen) && r == a + ns + b
    ensures ReplaceSkillsSection(r, ns) == r
    ensures RemoveSkillsSection(r) == a + RemovedNote + b
  {
    SpanAfter(a, ns, b, r);
    OuterReplace(r, ns);
    assert r[..|a|] == a && r[|a| + |ns|..] == b;
  }

  /**
   * Idempotence of the outer branch: replacing the first span by a section
   * and replacing again with the same section changes nothing more.
   */
  lemma OuterIdempotent(content: string, ns: string)
    requires IsSection(ns) && SectionSpan(content).Some?
    ensures ReplaceSkillsSection(ReplaceSkillsSection(content, ns), ns) == ReplaceSkillsSection(content, ns)
  {
    var sp := SectionSpan(content).value;
    OuterReplace(content, ns);
    PrefixLacksOpen(content);
    ReplaceAgain(content[..sp.start], ns, content[sp.end..], ReplaceSkillsSection(content, ns));
  }

  /**
   * Append branch: without either marker the section is appended after the
   * trimmed text and a blank line; a second run then takes the outer branch
   * and changes nothing.
   */
  lemma AppendIdempotent(content: string, ns: string)
    requires !Contains(content, SectionOpen) && !Contains(content, TableStart) && IsSection(ns)
    ensures ReplaceSkillsSection(content, ns) == TrimEnd(content) + "\n\n" + ns + "\n"
    ensures ReplaceSkillsSection(ReplaceSkillsSection(content, ns), ns) == ReplaceSkillsSection(content, ns)
  {
    var t := TrimEnd(content);
    LacksPrefix(content, SectionOpen, |t|);
    BlankLineInert();
    SectionOpenTagLike();
    assert "\n\n"[0] == '\n';
    Seam(t, "\n\n", SectionOpen);
    ReplaceAgain(t + "\n\n", ns, "\n", AppendSection(content, ns));
  }

  // ---------------------------------------------------------------------
  // The rendered section
  // ---------------------------------------------------------------------

  /** Title, guide and skills hold no occurrence of `pat`. */
  predicate UnmarkedBy(title: string, guide: string, skills: seq<Skill>, pat: string) {
    !Contains(title, pat) && !Contains(guide, pat) && SkillsLack(skills, pat)
  }

  /** Title, guide and skills hold none of the section's or the table's markers. */
  predicate Unmarked(title: string, guide: string, skills: seq<Skill>) {
    && UnmarkedBy(title, guide, skills, SectionOpen) && UnmarkedBy(title, guide, skills, SectionClose)
    && UnmarkedBy(title, guide, skills, TableStart) && UnmarkedBy(title, guide, skills, TableEnd)
  }

  /** The first `>` of the attribute text is its last character. */
  lemma AttributesEndTag()
    ensures IndexOf(SectionAttributes, ">") == Some(|SectionAttributes| - 1)
  {
    var p := SectionAttributes;
    forall i | 0 <= i < |p| - 1 ensures !OccursAt(p, ">", i) {
      assert p[i..][..1] == [p[i]];
    }
    assert p[|p| - 1..][..1] == ">";
    IndexOfLeftmost(p, ">", |p| - 1);
  }

  /** The template's opening tag ends at its own `>`, whatever follows it. */
  lemma OpenTagOfTemplate(rest: string, x: string)
    requires x == SectionTag + rest
    ensures OpenTagAt(x) == Some(|SectionTag|)
  {
    var p := SectionAttributes;
    assert x == SectionOpen + (p + rest);
    PrefixOfConcat(SectionOpen, p + rest);
    assert x[|SectionOpen|..] == p + rest;
    AttributesEndTag();
    IndexOfPrefix(p, rest, ">");
  }

  /** Between the template's tags, text without the closing tag makes the whole a section. */
  lemma TemplateIsSection(body: string, x: string)
    requires !Contains(body, SectionClose) && x == SectionTag + body + SectionClose
    ensures IsSection(x)
  {
    OpenTagOfTemplate(body + SectionClose, x);
    assert x[|SectionTag|..] == body + (SectionClose + "");
    SectionCloseTagLike();
    IndexOfFirst(body, SectionClose, "");
    SectionAtOf(x, |SectionTag|, |body|);
  }

  /** The template's text between the tags holds neither section tag when its inputs hold none. */
  lemma BodyLacks(title: string, guide: string, skills: seq<Skill>, pat: string)
    requires (pat == SectionOpen || pat == SectionClose) && UnmarkedBy(title, guide, skills, pat)
    ensures !Contains(SectionBody(title, guide, skills), pat)
  {
    MarkersTagLike();
    BlankLineInert();
    TableMarkersLackTags();
    TitleLinesLack(title, pat);
    ListedSkillsLack(guide, skills, pat);
    var l := ListedSkills(guide, skills);
    assert l[0] == '\n';
    var x1 := TitleLines(title) + TableStart;
    Seam(TitleLines(title), TableStart, pat);
    var x2 := x1 + l;
    Seam(x1, l, pat);
    var x3 := x2 + TableEnd;
    Seam(x2, TableEnd, pat);
    assert "\n\n"[0] == '\n';
    Seam(x3, "\n\n", pat);
  }

  /**
   * The rendered section is a section: the outer pattern, anchored at its
   * start, spans all of it, provided the title, the guide and the skills hold
   * no closing tag.
   */
  lemma GeneratedIsSection(title: string, guide: string, skills: seq<Skill>)
    requires UnmarkedBy(title, guide, skills, SectionClose)
    ensures IsSection(SkillsXml(title, guide, skills))
  {
    BodyLacks(title, guide, skills, SectionClose);
    TemplateIsSection(SectionBody(title, guide, skills), SkillsXml(title, guide, skills));
  }

  /** Neither message key holds a `<`, so neither holds a marker. */
  lemma KeysUnmarked(skills: seq<Skill>, pat: string)
    requires TagLike(pat) && SkillsLack(skills, pat)
    ensures UnmarkedBy(TitleKey, GuideKey, skills, pat)
  {
    assert '<' !in TitleKey;
    assert '<' !in GuideKey;
    assert pat[0] == '<';
    LacksByChar(TitleKey, pat, '<');
    LacksByChar(GuideKey, pat, '<');
  }

  /**
   * A sync run twice with the same skills and language writes the same
   * document, whenever the first run takes the outer or the append branch
   * and no skill holds a closing section tag.
   */
  lemma RenderedReplaceIdempotent(content: string, skills: seq<Skill>, lang: string)
    requires SkillsLack(skills, SectionClose)
    requires SectionSpan(content).Some? || (!Contains(content, SectionOpen) && !Contains(content, TableStart))
    ensures var x := GenerateSkillsXml(skills, lang);
      ReplaceSkillsSection(ReplaceSkillsSection(content, x), x) == ReplaceSkillsSection(content, x)
  {
    var x := GenerateSkillsXml(skills, lang);
    SectionCloseTagLike();
    KeysUnmarked(skills, SectionClose);
    GeneratedIsSection(TitleKey, GuideKey, skills);
    if SectionSpan(content).Some? {
      OuterIdempotent(content, x);
    } else {
      AppendIdempotent(content, x);
    }
  }

  // ---------------------------------------------------------------------
  // The marker branch: /<!-- SKILLS_TABLE_START -->[\s\S]*?<!-- SKILLS_TABLE_END -->/g
  // ---------------------------------------------------------------------

  /** A prefix in which no start marker begins is copied through by the global replace. */
  lemma {:induction false} ReplaceTablesSkip(a: string, x: string, rep: string)
    requires NoStartBefore(a + x, TableStart, |a|)
    ensures ReplaceTables(a + x, rep) == a + ReplaceTables(x, rep)
    decreases |a|
  {
    if |a| > 0 {
      var s := a + x;
      AppendTail(a, x);
      assert !OccursAt(s, TableStart, 0);
      NoStartBeforeTail(s, TableStart, |a|);
      ReplaceTablesSkip(a[1..], x, rep);
      var r := ReplaceTables(x, rep);
      assert ReplaceTables(s, rep) == [a[0]] + (a[1..] + r);
      ConsAppend(a, r);
    } else {
      assert a + x == x;
    }
  }

  /** A START…END table at the front, closed by the first end marker after the start marker, is one match of the marker pattern. */
  lemma TableAtOf(m: string, b: string, y: string)
    requires !Contains(m, TableEnd) && y == TableStart + m + TableEnd + b
    ensures TableAt(y) == Some(|TableStart| + |m| + |TableEnd|)
  {
    TableEndTagLike();
    assert y[..|TableStart|] == TableStart;
    assert y[|TableStart|..] == m + (TableEnd + b);
    IndexOfFirst(m, TableEnd, b);
  }

  /** A table at the front is replaced, and the scan goes on after its end marker. */
  lemma TableAtFront(m: string, b: string, rep: string, y: string)
    requires !Contains(m, TableEnd) && y == TableStart + m + TableEnd + b
    ensures ReplaceTables(y, rep) == rep + ReplaceTables(b, rep)
  {
    TableAtOf(m, b, y);
    assert y[|TableStart| + |m| + |TableEnd|..] == b;
  }

  /** Text free of the start marker, followed by text that starts with `<`, has no start marker before the seam. */
  lemma NoTableBefore(a: string, y: string)
    requires !Contains(a, TableStart) && |y| > 0 && y[0] == '<'
    ensures NoStartBefore(a + y, TableStart, |a|)
  {
    TableStartTagLike();
    SafeSeamBridge(a, y, TableStart);
    NoStartInPrefix(a, y, TableStart);
  }

  lemma TableLeads(m: string, b: string, y: string)
    requires y == TableStart + m + TableEnd + b
    ensures |y| > 0 && y[0] == '<'
  {
    assert y[0] == TableStart[0];
  }

  /**
   * One step of the global replace: text free of the start marker, then a
   * START…END table whose first end marker closes it, then any text. The
   * text before is kept, the table replaced, the text after scanned on.
   */
  lemma TablesStep(a: string, m: string, b: string, rep: string, y: string, s: string)
    requires !Contains(a, TableStart) && !Contains(m, TableEnd)
    requires y == TableStart + m + TableEnd + b && s == a + y
    ensures ReplaceTables(s, rep) == a + rep + ReplaceTables(b, rep)
  {
    TableLeads(m, b, y);
    NoTableBefore(a, y);
    ReplaceTablesSkip(a, y, rep);
    TableAtFront(m, b, rep, y);
  }

  /** Without an end marker nothing matches, and the global replace copies the text. */
  lemma {:induction false} TablesWithoutEnd(s: string, rep: string)
    requires !Contains(s, TableEnd)
    ensures ReplaceTables(s, rep) == s
    decreases |s|
  {
    if StartsWith(s, TableStart) {
      LacksSuffix(s, TableEnd, |TableStart|);
    }
    if |s| > 0 {
      LacksSuffix(s, TableEnd, 1);
      TablesWithoutEnd(s[1..], rep);
      assert s == [s[0]] + s[1..];
    }
  }

  /** Without the opening section marker and with the start marker, both functions take the marker branch. */
  lemma MarkerBranch(content: string, ns: string)
    requires !Contains(content, SectionOpen) && Contains(content, TableStart)
    ensures ReplaceSkillsSection(content, ns) == ReplaceTables(content, MarkedTable(ns))
    ensures RemoveSkillsSection(content) == ReplaceTables(content, RemovedTable)
  {
  }

  /**
   * Marker branch without an end marker: the pattern matches nowhere and both
   * functions return the document unchanged.
   */
  lemma InnerWithoutEnd(content: string, ns: string)
    requires !Contains(content, SectionOpen) && Contains(content, TableStart) && !Contains(content, TableEnd)
    ensures ReplaceSkillsSection(content, ns) == content
    ensures RemoveSkillsSection(content) == content
  {
    MarkerBranch(content, ns);
    TablesWithoutEnd(content, MarkedTable(ns));
    TablesWithoutEnd(content, RemovedTable);
  }

  /**
   * `replaceSkillsSection` on every document. With a match of the outer
   * pattern, the first one (before which no `<skills_system` occurs) is
   * replaced and the text around it kept; with `<skills_system` but no match
   * the document comes back as it was; otherwise, with a start marker, every
   * marked table is replaced by the wrapped section (nothing changes when no
   * end marker follows); with neither marker the section is appended.
   */
  lemma ReplaceSkillsSectionCases(content: string, ns: string)
    ensures SectionSpan(content).Some? ==>
      var sp := SectionSpan(content).value;
      && !Contains(content[..sp.start], SectionOpen)
      && ReplaceSkillsSection(content, ns) == content[..sp.start] + ns + content[sp.end..]
    ensures Contains(content, SectionOpen) && SectionSpan(content).None? ==> ReplaceSkillsSection(content, ns) == content
    ensures !Contains(content, SectionOpen) && Contains(content, TableStart) ==>
      && ReplaceSkillsSection(content, ns) == ReplaceTables(content, MarkedTable(ns))
      && (!Contains(content, TableEnd) ==> ReplaceSkillsSection(content, ns) == content)
    ensures !Contains(content, SectionOpen) && !Contains(content, TableStart) ==>
      ReplaceSkillsSection(content, ns) == AppendSection(content, ns)
  {
    if SectionSpan(content).Some? {
      OuterReplace(content, ns);
      PrefixLacksOpen(content);
    }
    if !Contains(content, SectionOpen) && Contains(content, TableStart) && !Contains(content, TableEnd) {
      InnerWithoutEnd(content, ns);
    }
  }

  /**
   * `removeSkillsSection` on every document: the same branches, with the
   * removal note in place of the first outer match and between the markers of
   * every marked table; a document with neither marker is kept as it is.
   */
  lemma RemoveSkillsSectionCases(content: string)
    ensures SectionSpan(content).Some? ==>
      var sp := SectionSpan(content).value;
      && !Contains(content[..sp.start], SectionOpen)
      && RemoveSkillsSection(content) == content[..sp.start] + RemovedNote + content[sp.end..]
    ensures Contains(content, SectionOpen) && SectionSpan(content).None? ==> RemoveSkillsSection(content) == content
    ensures !Contains(content, SectionOpen) && Contains(content, TableStart) ==>
      && RemoveSkillsSection(content) == ReplaceTables(content, RemovedTable)
      && (!Contains(content, TableEnd) ==> RemoveSkillsSection(content) == content)
    ensures !Contains(content, SectionOpen) && !Contains(content, TableStart) ==> RemoveSkillsSection(content) == content
  {
    if SectionSpan(content).Some? {
      OuterReplace(content, "");
      PrefixLacksOpen(content);
    }
    if !Contains(content, SectionOpen) && Contains(content, TableStart) && !Contains(content, TableEnd) {
      InnerWithoutEnd(content, "");
    }
  }

  /** A document made of text, a table and more text holds the start marker. */
  lemma TableFound(a: string, y: string, s: string)
    requires |y| >= |TableStart| && y[..|TableStart|] == TableStart && s == a + y
    ensures Contains(s, TableStart)
  {
    assert s[|a|..] == y;
    assert OccursAt(s, TableStart, |a|);
  }

  /**
   * Marker branch over a document with one table: the table becomes START, a
   * line break, the new section without its section tags, a line break and
   * END (the removal note between the markers for `removeSkillsSection`), and
   * the text around it is kept.
   */
  lemma InnerOneTable(content: string, a: string, m: string, b: string, ns: string)
    requires !Contains(content, SectionOpen) && content == a + (TableStart + m + TableEnd + b)
    requires !Contains(a, TableStart) && !Contains(m, TableEnd) && !Contains(b, TableStart)
    ensures ReplaceSkillsSection(content, ns) == a + MarkedTable(ns) + b
    ensures RemoveSkillsSection(content) == a + RemovedTable + b
  {
    var y := TableStart + m + TableEnd + b;
    assert y[..|TableStart|] == TableStart;
    TableFound(a, y, content);
    MarkerBranch(content, ns);
    TablesStep(a, m, b, MarkedTable(ns), y, content);
    TablesStep(a, m, b, RemovedTable, y, content);
  }

  /** The text between the markers of the removal table. */
  const RemovedMiddle: string := "\n" + RemovedNote + "\n"

  lemma RemovedMiddleLacks()
    ensures !Contains(RemovedMiddle, TableEnd) && !Contains(RemovedMiddle, SectionOpen)
    ensures RemovedMiddle[0] == '\n'
  {
    assert '_' !in RemovedMiddle;
    assert TableEnd[11] == '_';
    assert SectionOpen[7] == '_';
    LacksByChar(RemovedMiddle, TableEnd, '_');
    LacksByChar(RemovedMiddle, SectionOpen, '_');
  }

  lemma Regroup(p: string, q: string, r: string, t: string, u: string)
    ensures p + q + r + t + u == p + (q + r + t) + u
  {
  }

  lemma RemovedTableParts()
    ensures RemovedTable == TableStart + RemovedMiddle + TableEnd
  {
    Regroup(TableStart, "\n", RemovedNote, "\n", TableEnd);
  }

  lemma EndsWithTag(x: string, t: string)
    requires TagLike(t) && t[|t| - 1] == '>'
    ensures |x + t| > 0 && (x + t)[0] == (if |x| > 0 then x[0] else '<') && (x + t)[|x + t| - 1] == '>'
  {
  }

  /** The removal table starts with `<`, ends with `>` and holds no opening section marker. */
  lemma RemovedTableLacksOpen()
    ensures !Contains(RemovedTable, SectionOpen)
    ensures RemovedTable[0] == '<' && RemovedTable[|RemovedTable| - 1] == '>'
  {
    RemovedTableParts();
    SectionOpenTagLike();
    TableMarkersLackTags();
    RemovedMiddleLacks();
    Seam(TableStart, RemovedMiddle, SectionOpen);
    TableEndTagLike();
    Seam(TableStart + RemovedMiddle, TableEnd, SectionOpen);
    assert TableEnd[|TableEnd| - 1] == '>';
    TableStartTagLike();
    EndsWithTag(TableStart + RemovedMiddle, TableEnd);
  }

  /**
   * Removal in the marker branch is idempotent on a document with one table:
   * the removal table is itself a table, and replacing it by itself changes
   * nothing.
   */
  lemma RemoveInnerIdempotent(content: string, a: string, m: string, b: string)
    requires !Contains(content, SectionOpen) && content == a + (TableStart + m + TableEnd + b)
    requires !Contains(a, TableStart) && !Contains(m, TableEnd) && !Contains(b, TableStart)
    ensures RemoveSkillsSection(content) == a + RemovedTable + b
    ensures RemoveSkillsSection(RemoveSkillsSection(content)) == RemoveSkillsSection(content)
  {
    InnerOneTable(content, a, m, b, "");
    PiecesAround(a, m, b, content, SectionOpen);
    RemovedTableLacksOpen();
    AroundLacksOpen(a, RemovedTable, b);
    RemovedMiddleLacks();
    var r := a + RemovedTable + b;
    RemovedTableParts();
    TableRegroup(a, RemovedTable, RemovedMiddle, b, r);
    InnerOneTable(r, a, RemovedMiddle, b, "");
  }

  lemma TableRegroup(a: string, t: string, m: string, b: string, r: string)
    requires t == TableStart + m + TableEnd && r == a + t + b
    ensures r == a + (TableStart + m + TableEnd + b)
  {
  }

  /** A tag-delimited text between texts free of the opening section marker leaves the whole free of it. */
  lemma AroundLacksOpen(a: string, t: string, b: string)
    requires !Contains(a, SectionOpen) && !Contains(t, SectionOpen) && !Contains(b, SectionOpen)
    requires |t| > 0 && t[0] == '<' && t[|t| - 1] == '>'
    ensures !Contains(a + t + b, SectionOpen)
  {
    SectionOpenTagLike();
    Seam(a, t, SectionOpen);
    assert (a + t)[|a + t| - 1] == '>';
    Seam(a + t, b, SectionOpen);
  }

  /** The text before and after a table lacks whatever the document lacks. */
  lemma PiecesAround(a: string, m: string, b: string, content: string, pat: string)
    requires content == a + (TableStart + m + TableEnd + b) && !Contains(content, pat)
    ensures !Contains(a, pat) && !Contains(b, pat)
  {
    var t := TableStart + m + TableEnd;
    assert content == a + t + b;
    PiecesLack(a, t, b, pat);
  }

  // ---------------------------------------------------------------------
  // The marker branch run twice
  // ---------------------------------------------------------------------

  /** Where neither section tag starts, the tag-stripping replace copies the text through. */
  lemma {:induction false} StripSkip(a: string, x: string)
    requires NoStartBefore(a + x, SectionOpen, |a|) && NoStartBefore(a + x, SectionClose, |a|)
    ensures StripSectionTags(a + x) == a + StripSectionTags(x)
    decreases |a|
  {
    if |a| > 0 {
      var s := a + x;
      AppendTail(a, x);
      assert !OccursAt(s, SectionOpen, 0) && !OccursAt(s, SectionClose, 0);
      NoStartBeforeTail(s, SectionOpen, |a|);
      NoStartBeforeTail(s, SectionClose, |a|);
      StripSkip(a[1..], x);
      var r := StripSectionTags(x);
      assert StripSectionTags(s) == [a[0]] + (a[1..] + r);
      ConsAppend(a, r);
    } else {
      assert a + x == x;
    }
  }

  /** The closing tag alone strips to nothing. */
  lemma StripClose()
    ensures StripSectionTags(SectionClose) == ""
  {
    assert SectionClose[1] != SectionOpen[1];
    assert !StartsWith(SectionClose, SectionOpen);
    assert SectionClose[|SectionClose|..] == "";
  }

  /** Stripping the section tags from the template leaves the text between them. */
  lemma StripTemplate(body: string, x: string)
    requires !Contains(body, SectionOpen) && !Contains(body, SectionClose) && x == SectionTag + body + SectionClose
    ensures StripSectionTags(x) == body
  {
    OpenTagOfTemplate(body + SectionClose, x);
    assert x[|SectionTag|..] == body + SectionClose;
    SectionOpenTagLike();
    SectionCloseTagLike();
    SafeSeamBridge(body, SectionClose, SectionOpen);
    NoStartInPrefix(body, SectionClose, SectionOpen);
    SafeSeamBridge(body, SectionClose, SectionClose);
    NoStartInPrefix(body, SectionClose, SectionClose);
    StripSkip(body, SectionClose);
    StripClose();
  }

  /** Text free of both section tags, followed by a text that starts with `<`, has neither tag starting before the seam. */
  lemma NoTagBefore(a: string, y: string)
    requires !Contains(a, SectionOpen) && !Contains(a, SectionClose) && |y| > 0 && y[0] == '<'
    ensures NoStartBefore(a + y, SectionOpen, |a|) && NoStartBefore(a + y, SectionClose, |a|)
  {
    SectionOpenTagLike();
    SectionCloseTagLike();
    SafeSeamBridge(a, y, SectionOpen);
    NoStartInPrefix(a, y, SectionOpen);
    SafeSeamBridge(a, y, SectionClose);
    NoStartInPrefix(a, y, SectionClose);
  }

  /**
   * One step of the tag-stripping replace at a closing tag: text free of both
   * tags is kept, the closing tag dropped, and the text after it stripped.
   */
  lemma StripStepClose(a: string, b: string, y: string, s: string)
    requires !Contains(a, SectionOpen) && !Contains(a, SectionClose)
    requires y == SectionClose + b && s == a + y
    ensures StripSectionTags(s) == a + StripSectionTags(b)
  {
    assert y[0] == SectionClose[0];
    NoTagBefore(a, y);
    StripSkip(a, y);
    StripAtClose(b, y);
  }

  /** A closing tag at the front is dropped. */
  lemma StripAtClose(b: string, y: string)
    requires y == SectionClose + b
    ensures StripSectionTags(y) == StripSectionTags(b)
  {
    assert y[1] == SectionClose[1] != SectionOpen[1];
    assert OpenTagAt(y).None?;
    PrefixOfConcat(SectionClose, b);
    assert y[|SectionClose|..] == b;
  }

  /**
   * One step of the tag-stripping replace at an opening tag: text free of
   * both tags is kept, `<skills_system`, its attributes and the first `>`
   * after it dropped, and the text after it stripped.
   */
  lemma StripStepOpen(a: string, attrs: string, b: string, y: string, s: string)
    requires !Contains(a, SectionOpen) && !Contains(a, SectionClose) && !Contains(attrs, ">")
    requires y == SectionOpen + (attrs + (">" + b)) && s == a + y
    ensures StripSectionTags(s) == a + StripSectionTags(b)
  {
    assert y[0] == SectionOpen[0];
    NoTagBefore(a, y);
    StripSkip(a, y);
    PrefixOfConcat(SectionOpen, attrs + (">" + b));
    assert y[|SectionOpen|..] == attrs + (">" + b);
    NoStartInPrefix(attrs, ">" + b, ">");
    assert (attrs + (">" + b))[|attrs|..][..1] == ">";
    IndexOfLeftmost(attrs + (">" + b), ">", |attrs|);
    assert y[|SectionOpen| + |attrs| + 1..] == b;
  }

  lemma MarkedRegroup(ts: string, n: string, t: string, l: string, te: string, nn: string)
    ensures ts + n + (t + ts + l + te + nn) + n + te == ts + (n + t + ts + l) + te + (nn + n + te)
  {
  }

  /** What the template puts before its own end marker, after the wrapping start marker. */
  function WrappedHead(title: string, guide: string, skills: seq<Skill>): string {
    "\n" + TitleLines(title) + TableStart + ListedSkills(guide, skills)
  }

  /** What follows the template's own end marker inside the wrapping table. */
  const WrappedTail: string := "\n\n" + "\n" + TableEnd

  /**
   * The marker branch's table for the rendered section holds the section's
   * own START…END pair inside a second one: read as a table, it ends at the
   * inner end marker and leaves a blank line and a stray end marker after it.
   */
  lemma MarkedTemplate(title: string, guide: string, skills: seq<Skill>, x: string)
    requires Unmarked(title, guide, skills) && x == SkillsXml(title, guide, skills)
    ensures MarkedTable(x) == TableStart + WrappedHead(title, guide, skills) + TableEnd + WrappedTail
    ensures !Contains(WrappedHead(title, guide, skills), TableEnd)
  {
    BodyLacks(title, guide, skills, SectionOpen);
    BodyLacks(title, guide, skills, SectionClose);
    StripTemplate(SectionBody(title, guide, skills), x);
    MarkedRegroup(TableStart, "\n", TitleLines(title), ListedSkills(guide, skills), TableEnd, "\n\n");
    WrappedHeadLacksEnd(title, guide, skills);
  }

  lemma WrappedHeadLacksEnd(title: string, guide: string, skills: seq<Skill>)
    requires UnmarkedBy(title, guide, skills, TableEnd)
    ensures !Contains(WrappedHead(title, guide, skills), TableEnd)
  {
    TableEndTagLike();
    BreakInert();
    TitleLinesLack(title, TableEnd);
    TableStartLacksEnd();
    ListedSkillsLack(guide, skills, TableEnd);
    var t := TitleLines(title);
    var l := ListedSkills(guide, skills);
    assert "\n"[0] == '\n' && t[0] == '\n' && l[0] == '\n';
    Seam("\n", t, TableEnd);
    Seam("\n" + t, TableStart, TableEnd);
    Seam("\n" + t + TableStart, l, TableEnd);
  }

  /** The marker branch's table for the rendered section starts with `<`, ends with `>` and holds no opening section marker. */
  lemma MarkedTemplateLacksOpen(title: string, guide: string, skills: seq<Skill>, x: string)
    requires Unmarked(title, guide, skills) && x == SkillsXml(title, guide, skills)
    ensures !Contains(MarkedTable(x), SectionOpen)
    ensures MarkedTable(x)[0] == '<' && MarkedTable(x)[|MarkedTable(x)| - 1] == '>'
  {
    var body := SectionBody(title, guide, skills);
    BodyLacks(title, guide, skills, SectionOpen);
    BodyLacks(title, guide, skills, SectionClose);
    StripTemplate(body, x);
    SectionOpenTagLike();
    TableMarkersLackTags();
    BreakInert();
    assert "\n"[0] == '\n';
    Seam(TableStart, "\n", SectionOpen);
    Seam(TableStart + "\n", body, SectionOpen);
    Seam(TableStart + "\n" + body, "\n", SectionOpen);
    TableEndTagLike();
    Seam(TableStart + "\n" + body + "\n", TableEnd, SectionOpen);
    TableStartTagLike();
    assert TableEnd[|TableEnd| - 1] == '>';
    EndsWithTag(TableStart + "\n" + body + "\n", TableEnd);
  }

  /** The stray end marker and the blank line before it hold no start marker, and end with `>`. */
  lemma WrappedTailLacksStart()
    ensures !Contains(WrappedTail, TableStart) && WrappedTail[|WrappedTail| - 1] == '>'
  {
    TableStartTagLike();
    BreaksInert();
    TableEndLacksStart();
    assert ("\n\n" + "\n")[0] == '\n';
    Seam("\n\n", "\n", TableStart);
    Seam("\n\n" + "\n", TableEnd, TableStart);
    assert TableEnd[|TableEnd| - 1] == '>';
  }

  lemma RerunRegroup(a: string, h: string, t: string, b: string, mt: string, r: string)
    requires mt == TableStart + h + TableEnd + t && r == a + mt + b
    ensures r == a + (TableStart + h + TableEnd + (t + b))
    ensures a + mt + (t + b) == a + mt + t + b
  {
  }

  /**
   * The marker branch is not idempotent. On a document with one table,
   * `replaceSkillsSection` with a rendered section puts START, the section
   * without its section tags (which still holds its own START…END pair) and
   * END in place of the table. A second run with the same section matches
   * from the outer START to the inner END, replaces that, and leaves the rest
   * behind: every run adds a blank line and a stray END marker.
   */
  lemma InnerRerunGrows(content: string, a: string, m: string, b: string, title: string, guide: string, skills: seq<Skill>)
    requires Unmarked(title, guide, skills)
    requires !Contains(content, SectionOpen) && content == a + (TableStart + m + TableEnd + b)
    requires !Contains(a, TableStart) && !Contains(m, TableEnd) && !Contains(b, TableStart)
    ensures var x := SkillsXml(title, guide, skills);
      && ReplaceSkillsSection(content, x) == a + MarkedTable(x) + b
      && ReplaceSkillsSection(ReplaceSkillsSection(content, x), x) == a + MarkedTable(x) + WrappedTail + b
  {
    var x := SkillsXml(title, guide, skills);
    var mt := MarkedTable(x);
    var h := WrappedHead(title, guide, skills);
    InnerOneTable(content, a, m, b, x);
    var r := a + mt + b;
    MarkedTemplate(title, guide, skills, x);
    MarkedTemplateLacksOpen(title, guide, skills, x);
    PiecesAround(a, m, b, content, SectionOpen);
    AroundLacksOpen(a, mt, b);
    WrappedTailLacksStart();
    TableStartTagLike();
    assert WrappedTail[|WrappedTail| - 1] == '>';
    Seam(WrappedTail, b, TableStart);
    RerunRegroup(a, h, WrappedTail, b, mt, r);
    InnerOneTable(r, a, h, WrappedTail + b, x);
  }

  /** A second run is longer than the first: the marker branch never settles. */
  lemma InnerNotIdempotent(content: string, a: string, m: string, b: string, title: string, guide: string, skills: seq<Skill>)
    requires Unmarked(title, guide, skills)
    requires !Contains(content, SectionOpen) && content == a + (TableStart + m + TableEnd + b)
    requires !Contains(a, TableStart) && !Contains(m, TableEnd) && !Contains(b, TableStart)
    ensures var x := SkillsXml(title, guide, skills);
      |ReplaceSkillsSection(ReplaceSkillsSection(content, x), x)| == |ReplaceSkillsSection(content, x)| + |WrappedTail|
  {
    InnerRerunGrows(content, a, m, b, title, guide, skills);
  }

  // ---------------------------------------------------------------------
  // The marker branch as evidently intended
  // ---------------------------------------------------------------------

  /** What `at` matches at the first occurrence of `open` in `s`, if it matches there. */
  function MatchAtFirst(s: string, open: string, at: string -> Option<nat>): Option<string> {
    match IndexOf(s, open)
    case None => None
    case Some(i) =>
      match at(s[i..])
      case None => None
      case Some(n) => if n <= |s| - i then Some(s[i..i + n]) else None
  }

  /** When `open` first occurs after `h` and `at` matches exactly `t` there, `t` is what is found. */
  lemma MatchAtFirstOf(h: string, t: string, f: string, s: string, open: string, at: string -> Option<nat>)
    requires s == h + (t + f) && IndexOf(s, open) == Some(|h|) && at(t + f) == Some(|t|)
    ensures MatchAtFirst(s, open, at) == Some(t)
  {
    assert s[|h|..] == t + f;
    assert s[|h|..|h| + |t|] == t;
  }

  /**
   * The first START…END table of the new section: from its first start
   * marker to the first end marker after it. This is what the marker branch
   * means to put in place of the document's table.
   */
  function SectionTable(ns: string): Option<string> {
    MatchAtFirst(ns, TableStart, TableAt)
  }

  /**
   * `replaceSkillsSection` with the marker branch putting the section's own
   * table in place of each table (the as-written wrapping when the section
   * has none).
   */
  function ReplaceSkillsSectionFixed(content: string, newSection: string): (r: string)
    ensures Contains(content, SectionOpen) || !Contains(content, TableStart) || SectionTable(newSection).None? ==>
      r == ReplaceSkillsSection(content, newSection)
  {
    if Contains(content, SectionOpen) then ReplaceSection(content, newSection)
    else if Contains(content, TableStart) then
      match SectionTable(newSection)
      case Some(t) => ReplaceTables(content, t)
      case None => ReplaceTables(content, MarkedTable(newSection))
    else AppendSection(content, newSection)
  }

  lemma TemplateRegroup(st: string, t: string, ts: string, l: string, te: string, nn: string, sc: string)
    ensures st + (t + ts + l + te + nn) + sc == (st + t) + (ts + l + te + (nn + sc))
  {
  }

  /** What the template puts before its table holds no start marker. */
  lemma TemplateHeadLacksStart(title: string)
    requires !Contains(title, TableStart)
    ensures !Contains(SectionTag + TitleLines(title), TableStart)
  {
    TableStartTagLike();
    SectionTagLacks();
    TitleLinesLack(title, TableStart);
    assert TitleLines(title)[0] == '\n';
    Seam(SectionTag, TitleLines(title), TableStart);
  }

  /** Text free of the start marker, then a START…END table: that table is the section's table. */
  lemma FirstTable(h: string, l: string, f: string, x: string)
    requires !Contains(h, TableStart) && !Contains(l, TableEnd) && x == h + (TableStart + l + TableEnd + f)
    ensures SectionTable(x) == Some(TableStart + l + TableEnd)
  {
    var y := TableStart + l + TableEnd + f;
    var t := TableStart + l + TableEnd;
    TableStartTagLike();
    assert y == TableStart + (l + TableEnd + f) && y == t + f;
    IndexOfFirst(h, TableStart, l + TableEnd + f);
    TableAtOf(l, f, y);
    MatchAtFirstOf(h, t, f, x, TableStart, TableAt);
  }

  /** The first table of the rendered section is its own START, usage guide, skill list and END. */
  lemma TemplateTable(title: string, guide: string, skills: seq<Skill>, x: string)
    requires Unmarked(title, guide, skills) && x == SkillsXml(title, guide, skills)
    ensures SectionTable(x) == Some(TableStart + ListedSkills(guide, skills) + TableEnd)
  {
    var l := ListedSkills(guide, skills);
    TemplateRegroup(SectionTag, TitleLines(title), TableStart, l, TableEnd, "\n\n", SectionClose);
    TemplateHeadLacksStart(title);
    ListedSkillsLack(guide, skills, TableEnd);
    FirstTable(SectionTag + TitleLines(title), l, "\n\n" + SectionClose, x);
  }

  /** The section's own table holds no opening section marker and is delimited by `<` and `>`. */
  lemma OwnTableLacksOpen(guide: string, skills: seq<Skill>, t: string)
    requires UnmarkedBy("", guide, skills, SectionOpen) && t == TableStart + ListedSkills(guide, skills) + TableEnd
    ensures !Contains(t, SectionOpen) && t[0] == '<' && t[|t| - 1] == '>'
  {
    var l := ListedSkills(guide, skills);
    SectionOpenTagLike();
    TableMarkersLackTags();
    ListedSkillsLack(guide, skills, SectionOpen);
    assert l[0] == '\n';
    Seam(TableStart, l, SectionOpen);
    TableEndTagLike();
    Seam(TableStart + l, TableEnd, SectionOpen);
    TableStartTagLike();
    assert TableEnd[|TableEnd| - 1] == '>';
    EndsWithTag(TableStart + l, TableEnd);
  }

  lemma FixedBranch(content: string, ns: string, t: string)
    requires !Contains(content, SectionOpen) && Contains(content, TableStart) && SectionTable(ns) == Some(t)
    ensures ReplaceSkillsSectionFixed(content, ns) == ReplaceTables(content, t)
  {
  }

  /** Corrected marker branch over a document with one table: the table becomes the section's own table. */
  lemma FixedOneTable(content: string, a: string, m: string, b: string, ns: string, t: string)
    requires !Contains(content, SectionOpen) && content == a + (TableStart + m + TableEnd + b)
    requires !Contains(a, TableStart) && !Contains(m, TableEnd) && !Contains(b, TableStart)
    requires SectionTable(ns) == Some(t)
    ensures ReplaceSkillsSectionFixed(content, ns) == a + t + b
  {
    var y := TableStart + m + TableEnd + b;
    assert y[..|TableStart|] == TableStart;
    TableFound(a, y, content);
    FixedBranch(content, ns, t);
    TablesStep(a, m, b, t, y, content);
  }

  /**
   * Corrected marker branch: on a document with one table, the table is
   * replaced by the rendered section's own table, and a second run with the
   * same section changes nothing.
   */
  lemma FixedIdempotent(content: string, a: string, m: string, b: string, title: string, guide: string, skills: seq<Skill>)
    requires Unmarked(title, guide, skills)
    requires !Contains(content, SectionOpen) && content == a + (TableStart + m + TableEnd + b)
    requires !Contains(a, TableStart) && !Contains(m, TableEnd) && !Contains(b, TableStart)
    ensures var x := SkillsXml(title, guide, skills);
      && ReplaceSkillsSectionFixed(content, x) == a + (TableStart + ListedSkills(guide, skills) + TableEnd) + b
      && ReplaceSkillsSectionFixed(ReplaceSkillsSectionFixed(content, x), x) == ReplaceSkillsSectionFixed(content, x)
  {
    var x := SkillsXml(title, guide, skills);
    var l := ListedSkills(guide, skills);
    var t := TableStart + l + TableEnd;
    TemplateTable(title, guide, skills, x);
    FixedOneTable(content, a, m, b, x, t);
    var r := a + t + b;
    PiecesAround(a, m, b, content, SectionOpen);
    OwnTableLacksOpen(guide, skills, t);
    AroundLacksOpen(a, t, b);
    ListedSkillsLack(guide, skills, TableEnd);
    TableRegroup(a, t, l, b, r);
    FixedOneTable(r, a, l, b, x, t);
  }
}
