/**
 * Where the markers of lib/utils/agents-md.js can and cannot occur in the text
 * the template renders. Every marker starts with `<`, holds no other `<`, has
 * `>` at most as its last character and no line break; such a token cannot
 * straddle a seam next to a line break, before a `<` or after a `>`, which is
 * where the template's pieces meet.
 */
module AgentsMdTokens {
  import opened Text
  import opened Skills
  import opened AgentsMd

  /** The shape every marker of the section has. */
  predicate TagLike(pat: string) {
    |pat| > 0 && pat[0] == '<' && '<' !in pat[1..] && '>' !in pat[..|pat| - 1] && '\n' !in pat
  }

  /** A tag-like token assembled from `<`, a middle free of `<`, `>` and line breaks, and a last character. */
  lemma TagLikeOf(middle: string, last: char)
    requires '<' !in middle && '>' !in middle && '\n' !in middle && last != '<' && last != '\n'
    ensures TagLike("<" + middle + [last])
  {
    var t := "<" + middle + [last];
    assert t[1..] == middle + [last];
    assert t[..|t| - 1] == "<" + middle;
  }

  lemma SkillTagsTagLike()
    ensures TagLike(SkillOpen) && TagLike(SkillClose)
  {
  }

  lemma SectionOpenTagLike()
    ensures TagLike(SectionOpen)
  {
  }

  lemma SectionCloseTagLike()
    ensures TagLike(SectionClose)
  {
  }

  lemma TableStartParts()
    ensures TableStart == "<" + "!-- SKILLS_TABLE_START --" + ">"
  {
  }

  lemma TableStartMiddleNoLt()
    ensures '<' !in "!-- SKILLS_TABLE_START --"
  {
  }

  lemma TableStartMiddleNoGt()
    ensures '>' !in "!-- SKILLS_TABLE_START --"
  {
  }

  lemma TableStartMiddleNoBreak()
    ensures '\n' !in "!-- SKILLS_TABLE_START --"
  {
  }

  lemma TableStartTagLike()
    ensures TagLike(TableStart)
  {
    TableStartParts();
    TableStartMiddleNoLt();
    TableStartMiddleNoGt();
    TableStartMiddleNoBreak();
    TagLikeOf("!-- SKILLS_TABLE_START --", '>');
  }

  lemma TableEndParts()
    ensures TableEnd == "<" + "!-- SKILLS_TABLE_END --" + ">"
  {
  }

  lemma TableEndMiddleNoLt()
    ensures '<' !in "!-- SKILLS_TABLE_END --"
  {
  }

  lemma TableEndMiddleNoGt()
    ensures '>' !in "!-- SKILLS_TABLE_END --"
  {
  }

  lemma TableEndMiddleNoBreak()
    ensures '\n' !in "!-- SKILLS_TABLE_END --"
  {
  }

  lemma TableEndTagLike()
    ensures TagLike(TableEnd)
  {
    TableEndParts();
    TableEndMiddleNoLt();
    TableEndMiddleNoGt();
    TableEndMiddleNoBreak();
    TagLikeOf("!-- SKILLS_TABLE_END --", '>');
  }

  lemma MarkersTagLike()
    ensures TagLike(SkillOpen) && TagLike(SkillClose)
    ensures TagLike(SectionOpen) && TagLike(SectionClose)
    ensures TagLike(TableStart) && TagLike(TableEnd)
  {
    SkillTagsTagLike();
    SectionOpenTagLike();
    SectionCloseTagLike();
    TableStartTagLike();
    TableEndTagLike();
  }

  /** A seam is safe when the left side ends with `>` or a line break, or the right side starts with `<` or a line break. */
  predicate SafeSeam(a: string, b: string) {
    (|a| > 0 && (a[|a| - 1] == '>' || a[|a| - 1] == '\n')) || (|b| > 0 && (b[0] == '<' || b[0] == '\n'))
  }

  /** A tag-like token cannot straddle a safe seam. */
  lemma SafeSeamBridge(a: string, b: string, pat: string)
    requires TagLike(pat) && SafeSeam(a, b)
    ensures NoBridge(a, b, pat)
  {
    forall i | 0 <= i < |pat| - 1
      ensures pat[1..][i] != '\n' && pat[..|pat| - 1][i] != '\n'
    {
      assert pat[1..][i] == pat[i + 1] && pat[..|pat| - 1][i] == pat[i];
    }
  }

  /** A tag-like token that neither side holds does not appear across a safe seam. */
  lemma Seam(a: string, b: string, pat: string)
    requires TagLike(pat) && !Contains(a, pat) && !Contains(b, pat) && SafeSeam(a, b)
    ensures !Contains(a + b, pat)
  {
    SafeSeamBridge(a, b, pat);
    LacksConcat(a, b, pat);
  }

  /** A text that holds none of the six markers. */
  predicate Inert(t: string) {
    && !Contains(t, SkillOpen) && !Contains(t, SkillClose)
    && !Contains(t, SectionOpen) && !Contains(t, SectionClose)
    && !Contains(t, TableStart) && !Contains(t, TableEnd)
  }

  /** The markers that a skill block, the title and the guide must not hold for the section's structure to stay as rendered. */
  predicate Structural(pat: string) {
    pat == SectionOpen || pat == SectionClose || pat == TableStart || pat == TableEnd
  }

  lemma BreakInert()
    ensures Inert("\n")
  {
    LacksByChar("\n", SkillOpen, '<');
    LacksByChar("\n", SkillClose, '<');
    LacksByChar("\n", SectionOpen, '<');
    LacksByChar("\n", SectionClose, '<');
    LacksByChar("\n", TableStart, '<');
    LacksByChar("\n", TableEnd, '<');
  }

  lemma BlankLineInert()
    ensures Inert("\n\n")
  {
    LacksByChar("\n\n", SkillOpen, '<');
    LacksByChar("\n\n", SkillClose, '<');
    LacksByChar("\n\n", SectionOpen, '<');
    LacksByChar("\n\n", SectionClose, '<');
    LacksByChar("\n\n", TableStart, '<');
    LacksByChar("\n\n", TableEnd, '<');
  }

  lemma BreaksInert()
    ensures Inert("\n") && Inert("\n\n")
  {
    BreakInert();
    BlankLineInert();
  }

  // Facts about the fixed text, each from the absence of one character.

  /** A text without `!` holds neither comment marker. */
  lemma NoBang(s: string)
    requires '!' !in s
    ensures !Contains(s, TableStart) && !Contains(s, TableEnd)
  {
    LacksByChar(s, TableStart, '!');
    LacksByChar(s, TableEnd, '!');
  }

  /** A text without `!` and without `y` holds no structural marker. */
  lemma NoBangNoY(s: string)
    requires '!' !in s && 'y' !in s
    ensures !Contains(s, SectionOpen) && !Contains(s, SectionClose)
    ensures !Contains(s, TableStart) && !Contains(s, TableEnd)
  {
    LacksByChar(s, SectionOpen, 'y');
    LacksByChar(s, SectionClose, 'y');
    NoBang(s);
  }

  /** A text without `!` and without `_` holds no structural marker. */
  lemma NoBangNoUnderscore(s: string)
    requires '!' !in s && '_' !in s
    ensures !Contains(s, SectionOpen) && !Contains(s, SectionClose)
    ensures !Contains(s, TableStart) && !Contains(s, TableEnd)
  {
    LacksByChar(s, SectionOpen, '_');
    LacksByChar(s, SectionClose, '_');
    NoBang(s);
  }

  /** A text without a lower-case `k` holds neither skill tag. */
  lemma NoLowerKSkill(s: string)
    requires 'k' !in s
    ensures !Contains(s, SkillOpen) && !Contains(s, SkillClose)
  {
    LacksByChar(s, SkillOpen, 'k');
    LacksByChar(s, SkillClose, 'k');
  }

  /** A text without a lower-case `k` holds neither section tag. */
  lemma NoLowerKSection(s: string)
    requires 'k' !in s
    ensures !Contains(s, SectionOpen) && !Contains(s, SectionClose)
  {
    LacksByChar(s, SectionOpen, 'k');
    LacksByChar(s, SectionClose, 'k');
  }

  /** Two texts each missing a character of `pat`, joined where `pat` cannot straddle. */
  lemma SplitLacks(a: string, b: string, pat: string, ca: char, cb: char)
    requires |pat| > 0 && ca in pat && ca !in a && cb in pat && cb !in b && NoBridge(a, b, pat)
    ensures !Contains(a + b, pat)
  {
    LacksByChar(a, pat, ca);
    LacksByChar(b, pat, cb);
    LacksConcat(a, b, pat);
  }

  lemma ListOpenLacksSkillOpen()
    ensures !Contains(ListOpen, SkillOpen)
  {
    assert ListOpen == "\n\n<available_" + "skills>\n\n";
    SplitLacks("\n\n<available_", "skills>\n\n", SkillOpen, 'k', '<');
  }

  lemma ListOpenLacksSkillClose()
    ensures !Contains(ListOpen, SkillClose)
  {
    LacksByChar(ListOpen, SkillClose, '/');
  }

  lemma ListOpenLacksStructural()
    ensures !Contains(ListOpen, SectionOpen) && !Contains(ListOpen, SectionClose)
    ensures !Contains(ListOpen, TableStart) && !Contains(ListOpen, TableEnd)
  {
    NoBangNoY(ListOpen);
  }

  lemma ListOpenInert()
    ensures Inert(ListOpen)
  {
    ListOpenLacksSkillOpen();
    ListOpenLacksSkillClose();
    ListOpenLacksStructural();
  }

  lemma ListCloseLacksSkillOpen()
    ensures !Contains(ListClose, SkillOpen)
  {
    assert ListClose == "\n\n</available_" + "skills>\n";
    SplitLacks("\n\n</available_", "skills>\n", SkillOpen, 'k', '<');
  }

  lemma ListCloseLacksSkillClose()
    ensures !Contains(ListClose, SkillClose)
  {
    assert ListClose == "\n\n</available_" + "skills>\n";
    SplitLacks("\n\n</available_", "skills>\n", SkillClose, 'k', '<');
  }

  lemma ListCloseLacksStructural()
    ensures !Contains(ListClose, SectionOpen) && !Contains(ListClose, SectionClose)
    ensures !Contains(ListClose, TableStart) && !Contains(ListClose, TableEnd)
  {
    NoBangNoY(ListClose);
  }

  lemma ListCloseInert()
    ensures Inert(ListClose)
  {
    ListCloseLacksSkillOpen();
    ListCloseLacksSkillClose();
    ListCloseLacksStructural();
  }

  /** The comment markers hold no lower-case `k`, so no tag of the section occurs in them. */
  lemma TableStartLacksSkillTags()
    ensures !Contains(TableStart, SkillOpen) && !Contains(TableStart, SkillClose)
  {
    NoLowerKSkill(TableStart);
  }

  lemma TableStartLacksSectionTags()
    ensures !Contains(TableStart, SectionOpen) && !Contains(TableStart, SectionClose)
  {
    NoLowerKSection(TableStart);
  }

  lemma TableEndLacksSkillTags()
    ensures !Contains(TableEnd, SkillOpen) && !Contains(TableEnd, SkillClose)
  {
    NoLowerKSkill(TableEnd);
  }

  lemma TableEndLacksSectionTags()
    ensures !Contains(TableEnd, SectionOpen) && !Contains(TableEnd, SectionClose)
  {
    NoLowerKSection(TableEnd);
  }

  lemma TableMarkersLackTags()
    ensures !Contains(TableStart, SkillOpen) && !Contains(TableStart, SkillClose)
    ensures !Contains(TableStart, SectionOpen) && !Contains(TableStart, SectionClose)
    ensures !Contains(TableEnd, SkillOpen) && !Contains(TableEnd, SkillClose)
    ensures !Contains(TableEnd, SectionOpen) && !Contains(TableEnd, SectionClose)
  {
    TableStartLacksSkillTags();
    TableStartLacksSectionTags();
    TableEndLacksSkillTags();
    TableEndLacksSectionTags();
  }

  lemma TableStartLacksEnd()
    ensures !Contains(TableStart, TableEnd)
  {
    LacksByChar(TableStart, TableEnd, 'D');
  }

  lemma TableEndLacksStart()
    ensures !Contains(TableEnd, TableStart)
  {
    LacksByChar(TableEnd, TableStart, 'R');
  }

  lemma SectionTagLacksSkillOpen()
    ensures !Contains(SectionTag, SkillOpen)
  {
    SplitLacks(SectionOpen, SectionAttributes, SkillOpen, '>', '<');
  }

  lemma SectionTagLacksSlashed()
    ensures !Contains(SectionTag, SkillClose) && !Contains(SectionTag, SectionClose)
  {
    LacksByChar(SectionTag, SkillClose, '/');
    LacksByChar(SectionTag, SectionClose, '/');
  }

  lemma SectionTagLacksTables()
    ensures !Contains(SectionTag, TableStart) && !Contains(SectionTag, TableEnd)
  {
    NoBang(SectionTag);
  }

  lemma SectionTagLacks()
    ensures !Contains(SectionTag, SkillOpen) && !Contains(SectionTag, SkillClose)
    ensures !Contains(SectionTag, SectionClose)
    ensures !Contains(SectionTag, TableStart) && !Contains(SectionTag, TableEnd)
  {
    SectionTagLacksSkillOpen();
    SectionTagLacksSlashed();
    SectionTagLacksTables();
  }

  lemma SectionCloseLacksSkillOpen()
    ensures !Contains(SectionClose, SkillOpen)
  {
    assert SectionClose == "</skills" + "_system>";
    SplitLacks("</skills", "_system>", SkillOpen, '>', '<');
  }

  lemma SectionCloseLacksSkillClose()
    ensures !Contains(SectionClose, SkillClose)
  {
    assert SectionClose == "</skills" + "_system>";
    SplitLacks("</skills", "_system>", SkillClose, '>', '<');
  }

  lemma SectionCloseLacksOpen()
    ensures !Contains(SectionClose, SectionOpen)
  {
    var rest := SectionClose[1..];
    assert '<' !in rest;
    LacksByChar(rest, SectionOpen, '<');
    assert SectionClose == [SectionClose[0]] + rest;
    assert SectionClose[1] != SectionOpen[1];
    LacksCons(SectionClose[0], rest, SectionOpen);
  }

  lemma SectionCloseLacksTables()
    ensures !Contains(SectionClose, TableStart) && !Contains(SectionClose, TableEnd)
  {
    NoBang(SectionClose);
  }

  lemma SectionCloseLacks()
    ensures !Contains(SectionClose, SkillOpen) && !Contains(SectionClose, SkillClose)
    ensures !Contains(SectionClose, SectionOpen)
    ensures !Contains(SectionClose, TableStart) && !Contains(SectionClose, TableEnd)
  {
    SectionCloseLacksSkillOpen();
    SectionCloseLacksSkillClose();
    SectionCloseLacksOpen();
    SectionCloseLacksTables();
  }

  lemma SkillOpenStructuralFree()
    ensures !Contains(SkillOpen, SectionOpen) && !Contains(SkillOpen, SectionClose)
    ensures !Contains(SkillOpen, TableStart) && !Contains(SkillOpen, TableEnd)
  {
    NoBangNoUnderscore(SkillOpen);
  }

  lemma SkillCloseStructuralFree()
    ensures !Contains(SkillClose, SectionOpen) && !Contains(SkillClose, SectionClose)
    ensures !Contains(SkillClose, TableStart) && !Contains(SkillClose, TableEnd)
  {
    NoBangNoUnderscore(SkillClose);
  }

  lemma NameOpenStructuralFree()
    ensures !Contains(NameOpen, SectionOpen) && !Contains(NameOpen, SectionClose)
    ensures !Contains(NameOpen, TableStart) && !Contains(NameOpen, TableEnd)
  {
    NoBangNoUnderscore(NameOpen);
  }

  lemma NameCloseStructuralFree()
    ensures !Contains(NameClose, SectionOpen) && !Contains(NameClose, SectionClose)
    ensures !Contains(NameClose, TableStart) && !Contains(NameClose, TableEnd)
  {
    NoBangNoUnderscore(NameClose);
  }

  lemma DescriptionOpenStructuralFree()
    ensures !Contains("\n<description>", SectionOpen) && !Contains("\n<description>", SectionClose)
    ensures !Contains("\n<description>", TableStart) && !Contains("\n<description>", TableEnd)
  {
    NoBangNoUnderscore("\n<description>");
  }

  lemma DescriptionCloseStructuralFree()
    ensures !Contains("</description>\n", SectionOpen) && !Contains("</description>\n", SectionClose)
    ensures !Contains("</description>\n", TableStart) && !Contains("</description>\n", TableEnd)
  {
    NoBangNoUnderscore("</description>\n");
  }

  lemma DescriptionOpenLacksSkillClose()
    ensures !Contains("\n<description>", SkillClose)
  {
    LacksByChar("\n<description>", SkillClose, '/');
  }

  lemma DescriptionCloseLacksSkillClose()
    ensures !Contains("</description>\n", SkillClose)
  {
    LacksByChar("</description>\n", SkillClose, 'k');
  }

  /** The fixed text of a skill block holds no structural marker. */
  lemma BlockLiteralsLack(pat: string)
    requires Structural(pat)
    ensures !Contains(SkillOpen, pat) && !Contains(NameOpen, pat) && !Contains(NameClose, pat)
    ensures !Contains("\n<description>", pat) && !Contains("</description>\n", pat) && !Contains(SkillClose, pat)
  {
    SkillOpenStructuralFree();
    SkillCloseStructuralFree();
    NameOpenStructuralFree();
    NameCloseStructuralFree();
    DescriptionOpenStructuralFree();
    DescriptionCloseStructuralFree();
  }

  /** A block whose name and description hold no structural marker holds none either. */
  lemma BlockLacks(sk: Skill, pat: string)
    requires Structural(pat) && !Contains(sk.name, pat) && !Contains(sk.description, pat)
    ensures !Contains(SkillBlock(sk), pat)
  {
    MarkersTagLike();
    BlockLiteralsLack(pat);
    BreakInert();
    var x1 := SkillOpen + "\n";
    Seam(SkillOpen, "\n", pat);
    var x2 := x1 + NameOpen;
    Seam(x1, NameOpen, pat);
    var x3 := x2 + sk.name;
    Seam(x2, sk.name, pat);
    var x4 := x3 + NameClose;
    Seam(x3, NameClose, pat);
    var x5 := x4 + "\n<description>";
    Seam(x4, "\n<description>", pat);
    var x6 := x5 + sk.description;
    Seam(x5, sk.description, pat);
    var x7 := x6 + "</description>\n";
    Seam(x6, "</description>\n", pat);
    Seam(x7, SkillClose, pat);
  }

  /** Skills whose names and descriptions hold no structural marker. */
  predicate SkillsLack(skills: seq<Skill>, pat: string) {
    forall i :: 0 <= i < |skills| ==> !Contains(skills[i].name, pat) && !Contains(skills[i].description, pat)
  }

  /** The blocks joined by blank lines hold no structural marker when no skill does. */
  lemma {:induction false} BlocksLack(skills: seq<Skill>, pat: string)
    requires Structural(pat) && SkillsLack(skills, pat)
    ensures !Contains(Join(SkillBlocks(skills), "\n\n"), pat)
    decreases |skills|
  {
    var blocks := SkillBlocks(skills);
    if |skills| == 0 {
      LacksByChar("", pat, '<');
    } else if |skills| == 1 {
      BlockLacks(skills[0], pat);
    } else {
      MarkersTagLike();
      BreaksInert();
      assert blocks[1..] == SkillBlocks(skills[1..]);
      BlockLacks(skills[0], pat);
      BlocksLack(skills[1..], pat);
      var rest := Join(blocks[1..], "\n\n");
      Seam(blocks[0], "\n\n", pat);
      Seam(blocks[0] + "\n\n", rest, pat);
    }
  }

  lemma TitleLinesLack(title: string, pat: string)
    requires TagLike(pat) && !Contains(title, pat)
    ensures !Contains(TitleLines(title), pat)
  {
    LacksByChar("\n\n", pat, '<');
    Seam("\n\n", title, pat);
    Seam("\n\n" + title, "\n\n", pat);
  }

  /** The text between the markers holds no structural marker when the guide and the skills hold none. */
  lemma ListedSkillsLack(guide: string, skills: seq<Skill>, pat: string)
    requires Structural(pat) && !Contains(guide, pat) && SkillsLack(skills, pat)
    ensures !Contains(ListedSkills(guide, skills), pat)
  {
    MarkersTagLike();
    BreaksInert();
    ListOpenInert();
    ListCloseInert();
    BlocksLack(skills, pat);
    var j := Join(SkillBlocks(skills), "\n\n");
    Seam("\n", guide, pat);
    Seam("\n" + guide, ListOpen, pat);
    Seam("\n" + guide + ListOpen, j, pat);
    Seam("\n" + guide + ListOpen + j, ListClose, pat);
  }
}
