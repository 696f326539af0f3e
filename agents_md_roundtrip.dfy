/**
 * Reading a rendered section back: `parseCurrentSkills` applied to what
 * `generateSkillsXml` renders yields the trimmed skill names, in order, as
 * long as the text around the blocks cannot be mistaken for a skill tag and
 * each block can be read (lib/utils/agents-md.js:4-16 against 21-55).
 */
module AgentsMdRoundTrip {
  import opened Wrappers
  import opened Text
  import opened Skills
  import opened AgentsMd
  import opened AgentsMdTokens
  import Localization

  /** A skill whose block the scan reads back: a non-empty name without `<`, and a description that does not close the skill tag. */
  predicate Readable(sk: Skill) {
    |sk.name| > 0 && '<' !in sk.name && !Contains(sk.description, SkillClose)
  }

  /** The trimmed names of the skills, in order. */
  function TrimmedNames(skills: seq<Skill>): (r: seq<string>)
    ensures |r| == |skills|
    ensures forall i :: 0 <= i < |skills| ==> r[i] == Trim(skills[i].name)
    decreases |skills|
  {
    if |skills| == 0 then [] else [Trim(skills[0].name)] + TrimmedNames(skills[1..])
  }

  /** The names of the skills, in order. */
  function Names(skills: seq<Skill>): (r: seq<string>)
    ensures |r| == |skills|
    ensures forall i :: 0 <= i < |skills| ==> r[i] == skills[i].name
  {
    seq(|skills|, i requires 0 <= i < |skills| => skills[i].name)
  }

  lemma TrimmedNamesAre(skills: seq<Skill>)
    ensures TrimAll(Names(skills)) == TrimmedNames(skills)
  {
  }

  /** Where no `<skill>` starts before `n`, the skill pattern is anchored nowhere before `n`. */
  lemma NoSkillBefore(s: string, n: nat)
    requires n <= |s| && NoStartBefore(s, SkillOpen, n)
    ensures forall i :: 0 <= i < n ==> MatchFrom(s, SkillAt, i).None?
  {
    forall i | 0 <= i < n ensures MatchFrom(s, SkillAt, i).None? {
      assert !OccursAt(s, SkillOpen, i);
    }
  }

  /** A prefix in which no skill tag starts is passed over by the scan. */
  lemma SkipPrefix(a: string, x: string)
    requires NoStartBefore(a + x, SkillOpen, |a|)
    ensures Captures(a + x) == Captures(x)
  {
    SkillAtConsumes();
    NoSkillBefore(a + x, |a|);
    DropPrefix(a, x);
    ScanAllSkip(a + x, |a|, x, SkillAt);
  }

  /** `[^<]+` takes a whole name that has no `<` when a `<` follows it. */
  lemma {:induction false} LeadingRunStops(a: string, b: string)
    requires '<' !in a && |b| > 0 && b[0] == '<'
    ensures LeadingRun(a + b) == a
    decreases |a|
  {
    if |a| == 0 {
      assert a + b == b;
    } else {
      assert (a + b)[1..] == a[1..] + b;
      LeadingRunStops(a[1..], b);
      assert a == [a[0]] + a[1..];
    }
  }

  /** The lines of a block that carry the description. */
  function DescriptionLines(description: string): string {
    "\n<description>" + description + "</description>\n"
  }

  /** The description lines of a block do not close the skill tag. */
  lemma DescriptionLinesLackClose(description: string)
    requires !Contains(description, SkillClose)
    ensures !Contains(DescriptionLines(description), SkillClose)
  {
    SkillTagsTagLike();
    DescriptionOpenLacksSkillClose();
    DescriptionCloseLacksSkillClose();
    Seam("\n<description>", description, SkillClose);
    Seam("\n<description>" + description, "</description>\n", SkillClose);
  }

  /** The first closing tag after the description lines is the block's own. */
  lemma CloseAfterDescription(description: string, y: string, e: string)
    requires !Contains(description, SkillClose)
    requires e == DescriptionLines(description) + (SkillClose + y)
    ensures IndexOf(e, SkillClose) == Some(|DescriptionLines(description)|)
  {
    var d := DescriptionLines(description);
    var tail := SkillClose + y;
    DescriptionLinesLackClose(description);
    SkillTagsTagLike();
    SafeSeamBridge(d, tail, SkillClose);
    NoStartInPrefix(d, tail, SkillClose);
    PrefixOfConcat(SkillClose, y);
    assert IndexOf(tail, SkillClose) == Some(0);
    DropPrefix(d, tail);
    IndexOfSuffix(e, |d|, tail, SkillClose);
  }

  /** `([^<]+)<\/name>[\s\S]*?<\/skill>` on a name without `<`, then `</name>`, then text whose first closing tag is at `k`. */
  lemma NameTailOf(name: string, rest: string, e: string, k: nat)
    requires |name| > 0 && '<' !in name
    requires rest == NameClose + e && IndexOf(e, SkillClose) == Some(k)
    ensures NameTail(name + rest).Some?
    ensures NameTail(name + rest).value.len == |name| + |NameClose| + k + |SkillClose| && NameTail(name + rest).value.capture == name
  {
    DropPrefix(NameClose, e);
    LeadingRunStops(name, rest);
    DropPrefix(name, rest);
    assert (name + rest)[|name| + |NameClose|..] == e;
  }

  lemma DropPrefix(a: string, b: string)
    ensures StartsWith(a + b, a) && (a + b)[|a|..] == b
  {
    PrefixOfConcat(a, b);
  }

  lemma BlockRegroup(a1: string, a2: string, a3: string, a4: string, a5: string, a6: string, a7: string, a8: string, a9: string, y: string)
    ensures a1 + a2 + a3 + a4 + a5 + a6 + a7 + a8 + a9 + y == a1 + (a2 + (a3 + (a4 + (a5 + ((a6 + a7 + a8) + (a9 + y))))))
  {
  }

  /** The lazy `[\s\S]*?` moves past a line break, where `<name>` cannot start. */
  lemma NameFromSkip(s: string, q: nat)
    requires q < |s| && s[q] == '\n'
    ensures NameFrom(s, q) == NameFrom(s, q + 1)
  {
    assert !StartsWith(s[q..], NameOpen) by {
      assert s[q..][0] == '\n' && NameOpen[0] == '<';
    }
  }

  /** Where `<name>` starts and the rest of the pattern completes, the match ends with the name tail. */
  lemma NameFromHit(s: string, q: nat)
    requires q + |NameOpen| <= |s| && StartsWith(s[q..], NameOpen) && NameTail(s[q + |NameOpen|..]).Some?
    ensures NameFrom(s, q) == Some(Hit(q + |NameOpen| + NameTail(s[q + |NameOpen|..]).value.len, NameTail(s[q + |NameOpen|..]).value.capture))
  {
  }

  /** `<skill>`, a line break and `<name>` followed by a name tail: the skill pattern matches from the start. */
  lemma SkillAtBlockStart(s: string, u: string)
    requires s == SkillOpen + ("\n" + (NameOpen + u)) && NameTail(u).Some?
    ensures SkillAt(s) == Some(Hit(|SkillOpen| + 1 + |NameOpen| + NameTail(u).value.len, NameTail(u).value.capture))
  {
    BlockStartShape(s, u);
    NameFromAfterBreak(s, |SkillOpen|, u);
  }

  lemma BlockStartShape(s: string, u: string)
    requires s == SkillOpen + ("\n" + (NameOpen + u))
    ensures StartsWith(s, SkillOpen) && |SkillOpen| < |s| && s[|SkillOpen|] == '\n'
    ensures s[|SkillOpen| + 1..] == NameOpen + u
  {
    DropPrefix(SkillOpen, "\n" + (NameOpen + u));
    assert s[|SkillOpen| + 1..] == s[|SkillOpen|..][1..];
  }

  /** From a line break followed by `<name>` and a name tail, the lazy search finds that `<name>`. */
  lemma NameFromAfterBreak(s: string, q: nat, u: string)
    requires q < |s| && s[q] == '\n' && s[q + 1..] == NameOpen + u && NameTail(u).Some?
    ensures NameFrom(s, q) == Some(Hit(q + 1 + |NameOpen| + NameTail(u).value.len, NameTail(u).value.capture))
  {
    NameFromSkip(s, q);
    NameFromAt(s, q + 1, u);
  }

  /** Where `<name>` and a name tail start, the lazy search stops there. */
  lemma NameFromAt(s: string, q: nat, u: string)
    requires q <= |s| && s[q..] == NameOpen + u && NameTail(u).Some?
    ensures NameFrom(s, q) == Some(Hit(q + |NameOpen| + NameTail(u).value.len, NameTail(u).value.capture))
  {
    DropPrefix(NameOpen, u);
    assert s[q + |NameOpen|..] == s[q..][|NameOpen|..];
    NameFromHit(s, q);
  }

  /** The skill pattern anchored at a block spans exactly the block and captures its name. */
  lemma BlockMatches(sk: Skill, y: string, s: string)
    requires Readable(sk) && s == SkillBlock(sk) + y
    ensures SkillAt(s).Some? && SkillAt(s).value.len == |SkillBlock(sk)| && SkillAt(s).value.capture == sk.name
  {
    var d := DescriptionLines(sk.description);
    var e := d + (SkillClose + y);
    var rest := NameClose + e;
    var u := sk.name + rest;
    CloseAfterDescription(sk.description, y, e);
    NameTailOf(sk.name, rest, e, |d|);
    BlockRegroup(SkillOpen, "\n", NameOpen, sk.name, NameClose, "\n<description>", sk.description, "</description>\n", SkillClose, y);
    SkillAtBlockStart(s, u);
  }

  /** One block contributes its name, and the scan resumes right after it. */
  lemma BlockStep(sk: Skill, y: string)
    requires Readable(sk)
    ensures Captures(SkillBlock(sk) + y) == [sk.name] + Captures(y)
  {
    var s := SkillBlock(sk) + y;
    BlockMatches(sk, y, s);
    SkillAtConsumes();
    ScanAllHere(s, SkillAt);
    DropPrefix(SkillBlock(sk), y);
  }

  /** Text that holds no `<skill>` yields no names. */
  lemma NoTagNoNames(f: string)
    requires !Contains(f, SkillOpen)
    ensures Captures(f) == []
  {
    SkillAtConsumes();
    forall i | 0 <= i <= |f| ensures MatchFrom(f, SkillAt, i).None? {
      assert !OccursAt(f, SkillOpen, i);
    }
    ScanAllNone(f, SkillAt);
  }

  /** The blocks joined by blank lines, followed by text without `<skill>`, yield the names in order. */
  lemma {:induction false} BlocksReadBack(skills: seq<Skill>, f: string)
    requires forall i :: 0 <= i < |skills| ==> Readable(skills[i])
    requires !Contains(f, SkillOpen)
    ensures Captures(Join(SkillBlocks(skills), "\n\n") + f) == Names(skills)
    decreases |skills|
  {
    if |skills| == 0 {
      NoBlocks(f);
    } else if |skills| == 1 {
      OneBlock(skills, f);
    } else {
      BlocksStep(skills, f);
      BlocksReadBack(skills[1..], f);
      NamesCons(skills);
    }
  }

  lemma NamesCons(skills: seq<Skill>)
    requires |skills| > 0
    ensures Names(skills) == [skills[0].name] + Names(skills[1..])
  {
  }

  lemma NoBlocks(f: string)
    requires !Contains(f, SkillOpen)
    ensures Captures(Join(SkillBlocks([]), "\n\n") + f) == []
  {
    assert Join(SkillBlocks([]), "\n\n") + f == f;
    NoTagNoNames(f);
  }

  lemma OneBlock(skills: seq<Skill>, f: string)
    requires |skills| == 1 && Readable(skills[0]) && !Contains(f, SkillOpen)
    ensures Captures(Join(SkillBlocks(skills), "\n\n") + f) == [skills[0].name]
  {
    assert Join(SkillBlocks(skills), "\n\n") == SkillBlock(skills[0]);
    BlockStep(skills[0], f);
    NoTagNoNames(f);
  }

  /** The first of several blocks contributes its name; the scan then passes over the blank line to the next block. */
  lemma BlocksStep(skills: seq<Skill>, f: string)
    requires |skills| > 1 && Readable(skills[0])
    ensures Captures(Join(SkillBlocks(skills), "\n\n") + f) ==
      [skills[0].name] + Captures(Join(SkillBlocks(skills[1..]), "\n\n") + f)
  {
    var rest := Join(SkillBlocks(skills[1..]), "\n\n") + f;
    JoinFirst(skills, f);
    BlockStep(skills[0], "\n\n" + rest);
    BlankLineSkipped(rest);
  }

  /** The joined blocks are the first block, a blank line and the joined remaining blocks. */
  lemma JoinFirst(skills: seq<Skill>, f: string)
    requires |skills| > 1
    ensures Join(SkillBlocks(skills), "\n\n") + f == SkillBlock(skills[0]) + ("\n\n" + (Join(SkillBlocks(skills[1..]), "\n\n") + f))
  {
    var blocks := SkillBlocks(skills);
    assert blocks[1..] == SkillBlocks(skills[1..]);
    JoinHead(blocks, "\n\n", f);
  }

  /** The blank line between two blocks is passed over by the scan. */
  lemma BlankLineSkipped(rest: string)
    ensures Captures("\n\n" + rest) == Captures(rest)
  {
    SkillTagsTagLike();
    BlankLineInert();
    SafeSeamBridge("\n\n", rest, SkillOpen);
    NoStartInPrefix("\n\n", rest, SkillOpen);
    SkipPrefix("\n\n", rest);
  }

  /** The text the template puts before the first block. */
  function Header(title: string, guide: string): string {
    SectionTag + TitleLines(title) + TableStart + "\n" + guide + ListOpen
  }

  /** The text the template puts after the last block. */
  const Footer: string := ListClose + TableEnd + "\n\n" + SectionClose

  lemma SectionRegroup(st: string, t: string, ts: string, n: string, g: string, lo: string, j: string, lc: string, te: string, nn: string, sc: string)
    ensures st + (t + ts + (n + g + lo + j + lc) + te + nn) + sc == (st + t + ts + n + g + lo) + (j + (lc + te + nn + sc))
  {
  }

  /** The rendered section is the header, the joined blocks and the footer. */
  lemma SectionShape(title: string, guide: string, skills: seq<Skill>)
    ensures SkillsXml(title, guide, skills) == Header(title, guide) + (Join(SkillBlocks(skills), "\n\n") + Footer)
  {
    var j := Join(SkillBlocks(skills), "\n\n");
    SectionRegroup(SectionTag, TitleLines(title), TableStart, "\n", guide, ListOpen, j, ListClose, TableEnd, "\n\n", SectionClose);
  }

  lemma SectionShapeAt(title: string, guide: string, skills: seq<Skill>, x: string)
    requires x == SkillsXml(title, guide, skills)
    ensures x == Header(title, guide) + (Join(SkillBlocks(skills), "\n\n") + Footer)
  {
    SectionShape(title, guide, skills);
  }

  lemma HeaderLacksSkillOpen(title: string, guide: string)
    requires !Contains(title, SkillOpen) && !Contains(guide, SkillOpen)
    ensures !Contains(Header(title, guide), SkillOpen)
  {
    SkillTagsTagLike();
    SectionTagLacks();
    TableMarkersLackTags();
    BreakInert();
    ListOpenInert();
    TitleLinesLack(title, SkillOpen);
    var x1 := SectionTag + TitleLines(title);
    Seam(SectionTag, TitleLines(title), SkillOpen);
    var x2 := x1 + TableStart;
    Seam(x1, TableStart, SkillOpen);
    var x3 := x2 + "\n";
    Seam(x2, "\n", SkillOpen);
    var x4 := x3 + guide;
    Seam(x3, guide, SkillOpen);
    Seam(x4, ListOpen, SkillOpen);
  }

  lemma FooterLacksSkillOpen()
    ensures !Contains(Footer, SkillOpen)
  {
    SkillTagsTagLike();
    ListCloseInert();
    TableMarkersLackTags();
    BlankLineInert();
    SectionCloseLacks();
    Seam(ListClose, TableEnd, SkillOpen);
    Seam(ListClose + TableEnd, "\n\n", SkillOpen);
    Seam(ListClose + TableEnd + "\n\n", SectionClose, SkillOpen);
  }

  /** Text without `<skill>` that ends at a safe seam is passed over by the scan. */
  lemma SkipHead(h: string, rest: string, s: string)
    requires !Contains(h, SkillOpen) && SafeSeam(h, rest) && s == h + rest
    ensures Captures(s) == Captures(rest)
  {
    SkillTagsTagLike();
    SafeSeamBridge(h, rest, SkillOpen);
    NoStartInPrefix(h, rest, SkillOpen);
    SkipPrefix(h, rest);
  }

  /** The header ends with the line break of the list's opening lines. */
  lemma HeaderEndsWithBreak(title: string, guide: string)
    ensures |Header(title, guide)| > 0 && Header(title, guide)[|Header(title, guide)| - 1] == '\n'
  {
    var h := Header(title, guide);
    SuffixOfConcat(SectionTag + TitleLines(title) + TableStart + "\n" + guide, ListOpen);
    assert h[|h| - 1] == ListOpen[|ListOpen| - 1];
  }

  /**
   * Round trip: scanning a rendered section `x` yields the trimmed names of
   * the skills it was rendered from, in order, one per skill, provided the
   * title and the guide hold no `<skill>` and every skill is readable.
   */
  lemma GeneratedSkillsReadBack(title: string, guide: string, skills: seq<Skill>, x: string)
    requires !Contains(title, SkillOpen) && !Contains(guide, SkillOpen)
    requires forall i :: 0 <= i < |skills| ==> Readable(skills[i])
    requires x == SkillsXml(title, guide, skills)
    ensures SkillNames(x) == TrimmedNames(skills)
  {
    TrimmedNamesAre(skills);
    SectionShapeAt(title, guide, skills, x);
    HeaderLacksSkillOpen(title, guide);
    FooterLacksSkillOpen();
    HeaderEndsWithBreak(title, guide);
    ReadBackBetween(Header(title, guide), skills, Footer, x);
  }

  /** Blocks between a head that ends a line and a foot, neither holding `<skill>`, yield the skills' names in order. */
  lemma ReadBackBetween(h: string, skills: seq<Skill>, f: string, s: string)
    requires !Contains(h, SkillOpen) && |h| > 0 && h[|h| - 1] == '\n' && !Contains(f, SkillOpen)
    requires forall i :: 0 <= i < |skills| ==> Readable(skills[i])
    requires s == h + (Join(SkillBlocks(skills), "\n\n") + f)
    ensures Captures(s) == Names(skills)
  {
    SkipHead(h, Join(SkillBlocks(skills), "\n\n") + f, s);
    BlocksReadBack(skills, f);
  }

  /**
   * What `generateSkillsXml(skills, lang)` renders (`x`), in any language, is
   * read back by `parseCurrentSkills` as the skills' trimmed names.
   */
  lemma GenerateThenParse(skills: seq<Skill>, lang: string, x: string)
    requires forall i :: 0 <= i < |skills| ==> Readable(skills[i])
    requires x == GenerateSkillsXml(skills, lang)
    ensures SkillNames(x) == TrimmedNames(skills)
  {
    KeysLackSkillOpen();
    GeneratedSkillsReadBack(TitleKey, GuideKey, skills, x);
  }

  lemma KeysLackSkillOpen()
    ensures !Contains(TitleKey, SkillOpen) && !Contains(GuideKey, SkillOpen)
  {
    TitleKeyLacks();
    GuideKeyLacks();
  }

  lemma TitleKeyLacks()
    ensures !Contains(TitleKey, SkillOpen)
  {
    assert '<' !in TitleKey;
    LacksByChar(TitleKey, SkillOpen, '<');
  }

  lemma GuideKeyLacks()
    ensures !Contains(GuideKey, SkillOpen)
  {
    assert '<' !in GuideKey;
    LacksByChar(GuideKey, SkillOpen, '<');
  }
}
