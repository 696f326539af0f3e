/**
 * The skills section of AGENTS.md (lib/utils/agents-md.js): reading the skill
 * names back out of a document, rendering the section, and merging it into or
 * removing it from a document. Every regular expression of the source is
 * modelled as an explicit scan: the leftmost position where the pattern
 * matches, a lazy `[\s\S]*?X` ending at the first `X`, a greedy `[^>]*>` ending
 * at the first `>`, and a global replace copying the text between
 * non-overlapping leftmost matches.
 */
module AgentsMd {
  import opened Wrappers
  import opened Text
  import opened Skills
  import Localization

  const SkillOpen: string := "<skill>"
  const SkillClose: string := "</skill>"
  const NameOpen: string := "<name>"
  const NameClose: string := "</name>"
  /** The outer marker `replaceSkillsSection` and `removeSkillsSection` test for. */
  const SectionOpen: string := "<skills_system"
  const SectionClose: string := "</skills_system>"
  /** The HTML comment markers of the fallback branch. */
  const TableStart: string := "<!-- SKILLS_TABLE_START -->"
  const TableEnd: string := "<!-- SKILLS_TABLE_END -->"
  const RemovedNote: string := "<!-- Skills section removed -->"

  // ---------------------------------------------------------------------
  // parseCurrentSkills
  // ---------------------------------------------------------------------

  /** The longest prefix of `u` without `<`: the only run `[^<]+` can take when `<\/name>` must follow. */
  function LeadingRun(u: string): (r: string)
    ensures |r| <= |u| && r == u[..|r|]
    ensures '<' !in r
    ensures |r| < |u| ==> u[|r|] == '<'
    decreases |u|
  {
    if |u| == 0 || u[0] == '<' then "" else [u[0]] + LeadingRun(u[1..])
  }

  /** What `([^<]+)` can capture: at least one character, none of them `<`. */
  type TagName = n: string | |n| > 0 && '<' !in n witness "a"

  /** A match of the skill pattern from some anchor: how many characters it spans and the captured name. */
  type Capture = Hit<TagName>

  /** `([^<]+)<\/name>[\s\S]*?<\/skill>` at the start of `u`. */
  function NameTail(u: string): (r: Option<Capture>)
    ensures r.Some? ==> r.value.len <= |u|
  {
    var run := LeadingRun(u);
    if |run| > 0 && StartsWith(u[|run|..], NameClose) then
      match IndexOf(u[|run| + |NameClose|..], SkillClose)
      case None => None
      case Some(k) =>
        var c: Capture := Hit(|run| + |NameClose| + k + |SkillClose|, run);
        Some(c)
    else None
  }

  /** `[\s\S]*?<name>([^<]+)<\/name>[\s\S]*?<\/skill>` from index `q` of `s`: the first `<name>` at or after `q` the rest of the pattern completes from. */
  function NameFrom(s: string, q: nat): (r: Option<Capture>)
    requires q <= |s|
    ensures r.Some? ==> q < r.value.len <= |s|
    decreases |s| - q
  {
    if StartsWith(s[q..], NameOpen) && NameTail(s[q + |NameOpen|..]).Some? then
      var c := NameTail(s[q + |NameOpen|..]).value;
      Some(Hit(q + |NameOpen| + c.len, c.capture))
    else if q == |s| then None
    else NameFrom(s, q + 1)
  }

  /** The skill pattern anchored at the start of `s`. */
  function SkillAt(s: string): (r: Option<Capture>)
    ensures r.Some? ==> StartsWith(s, SkillOpen) && 0 < r.value.len <= |s|
  {
    if StartsWith(s, SkillOpen) then NameFrom(s, |SkillOpen|) else None
  }

  /** Every match of the skill pattern spans at least `<skill>` and stays within the text. */
  lemma SkillAtConsumes()
    ensures Consumes(SkillAt)
  {
  }

  /**
   * `skillRegex.exec(content)` with the regular expression's `lastIndex` at
   * `lastIndex`: the leftmost match from there on, in positions of `content`;
   * the captured name is never empty and holds no `<`.
   */
  function Exec(content: string, lastIndex: nat): (r: Option<Found<TagName>>)
    requires lastIndex <= |content|
    ensures r.Some? ==> lastIndex <= r.value.start < r.value.end <= |content|
    ensures r.Some? ==> |r.value.capture| > 0 && '<' !in r.value.capture
  {
    SkillAtConsumes();
    ExecFrom(content, lastIndex, SkillAt)
  }

  /** `.trim()` applied to each captured name. */
  function TrimAll(names: seq<string>): (r: seq<string>)
    ensures |r| == |names|
    ensures forall i :: 0 <= i < |names| ==> r[i] == Trim(names[i])
  {
    seq(|names|, i requires 0 <= i < |names| => Trim(names[i]))
  }

  lemma TrimAllCons(n: string, rest: seq<string>)
    ensures TrimAll([n] + rest) == [Trim(n)] + TrimAll(rest)
  {
  }

  /** The captures of a global scan of `s`: leftmost match first, each scan resuming where the previous match ended. */
  function Captures(s: string): seq<TagName> {
    SkillAtConsumes();
    ScanAll(s, SkillAt)
  }

  /** The names a global scan of `s` collects: each capture, trimmed. */
  function SkillNames(s: string): seq<string> {
    TrimAll(Captures(s))
  }

  /** Every name the scan collects is free of `<` and has no whitespace at either end. */
  lemma SkillNamesClean(s: string)
    ensures forall n :: n in SkillNames(s) ==> '<' !in n && (n == [] || (!IsSpace(n[0]) && !IsSpace(n[|n| - 1])))
  {
    TrimmedTagNames(Captures(s));
  }

  /** Trimming a capture keeps it free of `<` and leaves no whitespace at either end. */
  lemma TrimmedTagNames(names: seq<TagName>)
    ensures forall n :: n in TrimAll(names) ==> '<' !in n && (n == [] || (!IsSpace(n[0]) && !IsSpace(n[|n| - 1])))
  {
    forall n | n in TrimAll(names)
      ensures '<' !in n && (n == [] || (!IsSpace(n[0]) && !IsSpace(n[|n| - 1])))
    {
      var i :| 0 <= i < |names| && n == TrimAll(names)[i];
      assert n == Trim(names[i]);
    }
  }

  /** With no match from `lastIndex` on, the rest of the scan collects nothing. */
  lemma SkillNamesDone(content: string, lastIndex: nat)
    requires lastIndex <= |content| && Exec(content, lastIndex).None?
    ensures SkillNames(content[lastIndex..]) == []
  {
    SkillAtConsumes();
    ExecFromDone(content, lastIndex, SkillAt);
  }

  /** The match `exec` finds from `lastIndex` contributes the next name, and the scan resumes at its end. */
  lemma SkillNamesStep(content: string, lastIndex: nat)
    requires lastIndex <= |content| && Exec(content, lastIndex).Some?
    ensures SkillNames(content[lastIndex..]) ==
      [Trim(Exec(content, lastIndex).value.capture)] + SkillNames(content[Exec(content, lastIndex).value.end..])
  {
    SkillAtConsumes();
    var m := Exec(content, lastIndex).value;
    ExecFromStep(content, lastIndex, SkillAt);
    TrimAllCons(m.capture, Captures(content[m.end..]));
  }

  /** `parseCurrentSkills(content)`: the `while` loop over `skillRegex.exec`. */
  method ParseCurrentSkills(content: string) returns (skillNames: seq<string>)
    ensures skillNames == SkillNames(content)
  {
    skillNames := [];
    var lastIndex: nat := 0;
    assert content[0..] == content;
    var found := Exec(content, lastIndex);
    while found.Some?
      invariant lastIndex <= |content|
      invariant found == Exec(content, lastIndex)
      invariant skillNames + SkillNames(content[lastIndex..]) == SkillNames(content)
      decreases |content| - lastIndex
    {
      SkillNamesStep(content, lastIndex);
      var name := Trim(found.value.capture);
      var rest := SkillNames(content[found.value.end..]);
      ConcatAssoc(skillNames, [name], rest);
      skillNames := skillNames + [name];
      lastIndex := found.value.end;
      found := Exec(content, lastIndex);
    }
    SkillNamesDone(content, lastIndex);
    ConcatEmpty(skillNames);
  }

  // ---------------------------------------------------------------------
  // generateSkillsXml
  // ---------------------------------------------------------------------

  /** The tag of one skill: name and description inserted verbatim. */
  function SkillBlock(s: Skill): string {
    SkillOpen + "\n" + NameOpen + s.name + NameClose + "\n<description>" + s.description + "</description>\n" + SkillClose
  }

  /** `skills.map(...)`: one block per skill, in order. */
  function SkillBlocks(skills: seq<Skill>): (r: seq<string>)
    ensures |r| == |skills|
    ensures forall i :: 0 <= i < |skills| ==> r[i] == SkillBlock(skills[i])
    decreases |skills|
  {
    if |skills| == 0 then [] else [SkillBlock(skills[0])] + SkillBlocks(skills[1..])
  }

  /** The attribute and the `>` that complete the template's opening tag. */
  const SectionAttributes: string := " priority=\"1\">"
  /** The opening tag the template starts with. */
  const SectionTag: string := SectionOpen + SectionAttributes

  /** The lines of the template around the title, up to the start marker. */
  function TitleLines(title: string): string {
    "\n\n" + title + "\n\n"
  }

  /** The opening tag of the skill list, with the blank lines around it. */
  const ListOpen: string := "\n\n<available_skills>\n\n"
  /** The closing tag of the skill list, with the blank line before it. */
  const ListClose: string := "\n\n</available_skills>\n"

  /** What the template puts between the two markers: the usage guide and the blocks joined by a blank line. */
  function ListedSkills(guide: string, skills: seq<Skill>): string {
    "\n" + guide + ListOpen + Join(SkillBlocks(skills), "\n\n") + ListClose
  }

  /** The template between the opening and the closing tag. */
  function SectionBody(title: string, guide: string, skills: seq<Skill>): string {
    TitleLines(title) + TableStart + ListedSkills(guide, skills) + TableEnd + "\n\n"
  }

  /** The section the template renders for a title, a usage guide and the skills. */
  function SkillsXml(title: string, guide: string, skills: seq<Skill>): (r: string)
    ensures StartsWith(r, SectionTag) && StartsWith(r, SectionOpen)
    ensures EndsWith(r, SectionClose)
  {
    var body := SectionBody(title, guide, skills);
    Wrapped(SectionTag, body, SectionClose);
    PrefixOfConcat(SectionOpen, SectionAttributes);
    PrefixTransitive(SectionTag + body + SectionClose, SectionTag, SectionOpen);
    SectionTag + body + SectionClose
  }

  /** The message keys the template asks for its title and its usage guide. */
  const TitleKey: string := "agentsSkillsTitle"
  const GuideKey: string := "agentsSkillsUsageGuide"

  /** What `localization` exports (lib/localization.js:211-215). */
  const LocalizationExports: set<string> := {"t", "currentLang", "detectLanguage"}

  /**
   * `generateSkillsXml(skills, lang)` as written: `resources` is destructured
   * from a module that does not export it (lib/utils/agents-md.js:22), so it
   * is `undefined`. Mapping the skills to blocks (lines 31-38) succeeds; the
   * throw comes at the template's first `t('agentsSkillsTitle')` (line 42),
   * whose `resources[lang]` (line 26) reads a property of `undefined`. The
   * exports are transcribed in `LocalizationExports`, and the failure follows
   * from `resources` not being among them: every call fails, whatever the
   * skills and the language.
   */
  function GenerateSkillsXmlAsWritten(skills: seq<Skill>, lang: string): (r: Result<string, string>)
    ensures r.Failure?
  {
    ResourcesNotExported();
    if "resources" in LocalizationExports then
      Success(GenerateSkillsXml(skills, lang))
    else
      Failure("TypeError: Cannot read properties of undefined (reading '" + lang + "')")
  }

  /** No export has the name `resources`: the names differ in length. */
  lemma ResourcesNotExported()
    ensures "resources" !in LocalizationExports
  {
    assert |"resources"| == 9 && |"t"| == 1 && |"currentLang"| == 11 && |"detectLanguage"| == 14;
  }

  /**
   * `generateSkillsXml(skills, lang)` with the message tables in reach: the
   * title and guide are looked up with the fallbacks of `t`. Neither table
   * has a message for either key, so in every language the template shows
   * the keys themselves.
   */
  function GenerateSkillsXml(skills: seq<Skill>, lang: string): (r: string)
    ensures r == SkillsXml(TitleKey, GuideKey, skills)
  {
    Localization.TemplateKeysMissing(lang);
    SkillsXml(Localization.Lookup(lang, TitleKey), Localization.Lookup(lang, GuideKey), skills)
  }

  // ---------------------------------------------------------------------
  // The outer-tag pattern /<skills_system[^>]*>[\s\S]*?<\/skills_system>/
  // ---------------------------------------------------------------------

  /** `<skills_system[^>]*>` at the start of `s`: the length up to and including the first `>` after the tag name. */
  function OpenTagAt(s: string): (r: Option<nat>)
    ensures r.Some? ==> StartsWith(s, SectionOpen) && |SectionOpen| < r.value <= |s| && s[r.value - 1] == '>'
  {
    if StartsWith(s, SectionOpen) then
      match IndexOf(s[|SectionOpen|..], ">")
      case None => None
      case Some(k) => Some(|SectionOpen| + k + 1)
    else None
  }

  /**
   * `[^>]*` stops at the first `>`: no `>` stands between the tag name and
   * the end of the match, and with no match after the tag name there is no
   * `>` at all.
   */
  lemma OpenTagFirst(s: string)
    ensures OpenTagAt(s).Some? ==> forall i :: |SectionOpen| <= i < OpenTagAt(s).value - 1 ==> s[i] != '>'
    ensures StartsWith(s, SectionOpen) && OpenTagAt(s).None? ==> forall i :: |SectionOpen| <= i < |s| ==> s[i] != '>'
  {
    if StartsWith(s, SectionOpen) {
      var n := |SectionOpen|;
      var k := match IndexOf(s[n..], ">") case None => |s| - n case Some(k) => k;
      NoneBeforeInSuffix(s, n, k, ">");
      forall i | n <= i < n + k ensures s[i] != '>' { OccursChar(s, '>', i); }
    }
  }

  /** The whole outer pattern at the start of `s`: the length of the match, which ends with the first closing tag after the opening one. */
  function SectionAt(s: string): (r: Option<nat>)
    ensures r.Some? ==> OpenTagAt(s).Some? && OpenTagAt(s).value + |SectionClose| <= r.value <= |s|
    ensures r.Some? ==> s[r.value - |SectionClose|..r.value] == SectionClose
  {
    match OpenTagAt(s)
    case None => None
    case Some(q) =>
      match IndexOf(s[q..], SectionClose)
      case None => None
      case Some(k) =>
        FoundInSuffix(s, q, SectionClose, k);
        Some(q + k + |SectionClose|)
  }

  /**
   * The lazy `[\s\S]*?` stops at the first closing tag after the opening
   * one: none starts between the opening tag and the end of the match, and
   * with an opening tag but no match there is none after it at all.
   */
  lemma SectionCloseFirst(s: string)
    ensures SectionAt(s).Some? ==>
      forall i :: OpenTagAt(s).value <= i < SectionAt(s).value - |SectionClose| ==> !OccursAt(s, SectionClose, i)
    ensures OpenTagAt(s).Some? && SectionAt(s).None? ==>
      forall i :: OpenTagAt(s).value <= i <= |s| ==> !OccursAt(s, SectionClose, i)
  {
    if OpenTagAt(s).Some? {
      var q := OpenTagAt(s).value;
      match IndexOf(s[q..], SectionClose)
      case None =>
        NoneBeforeInSuffix(s, q, |s| - q, SectionClose);
        assert !OccursAt(s, SectionClose, |s|);
      case Some(k) =>
        NoneBeforeInSuffix(s, q, k, SectionClose);
    }
  }

  /** A stretch `[start, end)` of a document. */
  datatype Span = Span(start: nat, end: nat)

  /** The first match of the outer pattern. */
  function SectionSpan(s: string): (r: Option<Span>)
    ensures r.Some? ==> r.value.start < r.value.end <= |s|
  {
    var l := Leftmost<nat>(s, SectionAt);
    if l.None? then None else Some(Span(l.value.0, l.value.0 + l.value.1))
  }

  /** The span is the outer pattern anchored at its start, and it is anchored nowhere earlier; without a span it is anchored nowhere. */
  lemma SectionSpanLeftmost(s: string)
    ensures SectionSpan(s).Some? ==> MatchFrom<nat>(s, SectionAt, SectionSpan(s).value.start) == Some(SectionSpan(s).value.end - SectionSpan(s).value.start)
    ensures SectionSpan(s).Some? ==> forall i :: 0 <= i < SectionSpan(s).value.start ==> MatchFrom<nat>(s, SectionAt, i).None?
    ensures SectionSpan(s).None? ==> forall i :: 0 <= i <= |s| ==> MatchFrom<nat>(s, SectionAt, i).None?
  {
  }

  /** Without an opening marker the outer pattern matches nowhere. */
  lemma NoMarkerNoSection(s: string)
    requires !Contains(s, SectionOpen)
    ensures SectionSpan(s).None?
  {
    forall i | 0 <= i <= |s| ensures MatchFrom<nat>(s, SectionAt, i).None? {
      assert !OccursAt(s, SectionOpen, i);
    }
  }

  /** `content.replace(outerRegex, replacement)`: the first match replaced, or the content unchanged when there is none. */
  function ReplaceSection(content: string, replacement: string): string {
    match SectionSpan(content)
    case None => content
    case Some(sp) => content[..sp.start] + replacement + content[sp.end..]
  }

  /** The outer pattern matches at `i`, `n` characters long, and at no earlier index. */
  ghost predicate FirstSectionMatch(s: string, i: nat, n: nat) {
    && i <= |s| && MatchFrom<nat>(s, SectionAt, i) == Some(n)
    && forall k :: 0 <= k < i ==> MatchFrom<nat>(s, SectionAt, k).None?
  }

  /**
   * `replace` without the `g` flag, stated by the matches alone: the leftmost
   * match of the outer pattern is cut out and the replacement put in its place,
   * and with no match anywhere the content comes back as it was.
   */
  lemma ReplaceSectionFirstMatch(content: string, replacement: string)
    ensures (forall k :: 0 <= k <= |content| ==> MatchFrom<nat>(content, SectionAt, k).None?) ==>
      ReplaceSection(content, replacement) == content
    ensures forall i: nat, n: nat :: FirstSectionMatch(content, i, n) ==>
      i + n <= |content| && ReplaceSection(content, replacement) == content[..i] + replacement + content[i + n..]
  {
    if SectionSpan(content).Some? {
      SectionSpanLeftmost(content);
    }
    forall i: nat, n: nat | FirstSectionMatch(content, i, n)
      ensures i + n <= |content| && ReplaceSection(content, replacement) == content[..i] + replacement + content[i + n..]
    {
      FirstMatchIsSpan(content, i, n);
    }
  }

  /** The first match of the outer pattern is the span `SectionSpan` finds. */
  lemma FirstMatchIsSpan(content: string, i: nat, n: nat)
    requires FirstSectionMatch(content, i, n)
    ensures SectionSpan(content).Some? && SectionSpan(content).value.start == i && SectionSpan(content).value.end == i + n
  {
    SectionSpanLeftmost(content);
    var sp := SectionSpan(content).value;
    assert !(sp.start < i) && !(i < sp.start);
  }

  // ---------------------------------------------------------------------
  // The marker pattern /<!-- SKILLS_TABLE_START -->[\s\S]*?<!-- SKILLS_TABLE_END -->/g
  // ---------------------------------------------------------------------

  /** The marker pattern at the start of `s`: the length up to the end of the first end marker after the start marker. */
  function TableAt(s: string): (r: Option<nat>)
    ensures r.Some? ==> StartsWith(s, TableStart) && |TableStart| + |TableEnd| <= r.value <= |s|
  {
    if StartsWith(s, TableStart) then
      match IndexOf(s[|TableStart|..], TableEnd)
      case None => None
      case Some(k) => Some(|TableStart| + k + |TableEnd|)
    else None
  }

  /**
   * The lazy `[\s\S]*?` stops at the first end marker: a match ends with an
   * end marker and none starts earlier after the start marker; with a start
   * marker but no match there is no end marker after it.
   */
  lemma TableEndFirst(s: string)
    ensures TableAt(s).Some? ==> OccursAt(s, TableEnd, TableAt(s).value - |TableEnd|)
    ensures TableAt(s).Some? ==>
      forall i :: |TableStart| <= i < TableAt(s).value - |TableEnd| ==> !OccursAt(s, TableEnd, i)
    ensures StartsWith(s, TableStart) && TableAt(s).None? ==>
      forall i :: |TableStart| <= i <= |s| ==> !OccursAt(s, TableEnd, i)
  {
    if StartsWith(s, TableStart) {
      var n := |TableStart|;
      match IndexOf(s[n..], TableEnd)
      case None =>
        NoneBeforeInSuffix(s, n, |s| - n, TableEnd);
        assert !OccursAt(s, TableEnd, |s|);
      case Some(k) =>
        OccursInSuffix(s, n, s[n..], TableEnd, n + k);
        NoneBeforeInSuffix(s, n, k, TableEnd);
    }
  }

  /** `s.replace(markerRegex, replacement)` with the `g` flag: every leftmost, non-overlapping match replaced. */
  function ReplaceTables(s: string, replacement: string): (r: string)
    ensures !Contains(s, TableStart) ==> r == s
    decreases |s|
  {
    match TableAt(s)
    case Some(n) => replacement + ReplaceTables(s[n..], replacement)
    case None =>
      if |s| == 0 then ""
      else
        assert !Contains(s, TableStart) ==> !Contains(s[1..], TableStart) by {
          if !Contains(s, TableStart) { LacksSuffix(s, TableStart, 1); }
        }
        [s[0]] + ReplaceTables(s[1..], replacement)
  }

  /** `section.replace(/<skills_system[^>]*>|<\/skills_system>/g, '')`: every opening and closing section tag dropped. */
  function StripSectionTags(s: string): (r: string)
    ensures |r| <= |s|
    ensures !Contains(s, SectionOpen) && !Contains(s, SectionClose) ==> r == s
    decreases |s|
  {
    match OpenTagAt(s)
    case Some(n) =>
      assert OccursAt(s, SectionOpen, 0);
      StripSectionTags(s[n..])
    case None =>
      if StartsWith(s, SectionClose) then
        assert OccursAt(s, SectionClose, 0);
        StripSectionTags(s[|SectionClose|..])
      else if |s| == 0 then ""
      else
        assert !Contains(s, SectionOpen) && !Contains(s, SectionClose) ==>
          !Contains(s[1..], SectionOpen) && !Contains(s[1..], SectionClose) by {
          if !Contains(s, SectionOpen) && !Contains(s, SectionClose) {
            LacksSuffix(s, SectionOpen, 1);
            LacksSuffix(s, SectionClose, 1);
          }
        }
        [s[0]] + StripSectionTags(s[1..])
  }

  /** What the marker branch of `replaceSkillsSection` puts in place of each marked table. */
  function MarkedTable(newSection: string): string {
    TableStart + "\n" + StripSectionTags(newSection) + "\n" + TableEnd
  }

  // ---------------------------------------------------------------------
  // replaceSkillsSection and removeSkillsSection
  // ---------------------------------------------------------------------

  /** The append branch: trailing whitespace dropped, a blank line, the section and a final newline. */
  function AppendSection(content: string, newSection: string): (r: string)
    ensures StartsWith(r, TrimEnd(content)) && EndsWith(r, newSection + "\n")
    ensures |r| == |TrimEnd(content)| + 2 + |newSection| + 1
    ensures r[|TrimEnd(content)|..|TrimEnd(content)| + 2] == "\n\n"
  {
    var t := TrimEnd(content);
    PrefixOfConcat(t, "\n\n" + newSection + "\n");
    SuffixOfConcat(t + "\n\n", newSection + "\n");
    assert t + "\n\n" + newSection + "\n" == t + ("\n\n" + newSection + "\n") == (t + "\n\n") + (newSection + "\n");
    assert (t + "\n\n" + newSection + "\n")[|t|..|t| + 2] == "\n\n";
    t + "\n\n" + newSection + "\n"
  }

  /** `replaceSkillsSection(content, newSection)` as written. */
  function ReplaceSkillsSection(content: string, newSection: string): string {
    if Contains(content, SectionOpen) then ReplaceSection(content, newSection)
    else if Contains(content, TableStart) then ReplaceTables(content, MarkedTable(newSection))
    else AppendSection(content, newSection)
  }

  /** What the marker branch of `removeSkillsSection` puts in place of each marked table. */
  const RemovedTable: string := TableStart + "\n" + RemovedNote + "\n" + TableEnd

  /** `removeSkillsSection(content)`. */
  function RemoveSkillsSection(content: string): string {
    if Contains(content, SectionOpen) then ReplaceSection(content, RemovedNote)
    else if Contains(content, TableStart) then ReplaceTables(content, RemovedTable)
    else content
  }
}
