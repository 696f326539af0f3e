# open-skilled-sdd: the AGENTS.md skills section, in Dafny

open-skilled-sdd installs "skills" (directories holding a `SKILL.md`) and lists
them in a project's `AGENTS.md` inside a `<skills_system>` section. This
project models the core of that tool and proves properties of the model:

- **Skill discovery** (`lib/utils/skills.js`), module `Skills`. The loop over
  the skills directory becomes a `for` loop, and the in-place sort becomes an
  insertion sort on an `array`. The directory listing is an input.
- **Front-matter helpers** (`lib/utils/yaml.js`), module `Yaml`. The
  multiline pattern `^field:\s*(.+)$` is a scan over line starts, and it keeps
  the engine's backtracking: `\s*` crosses line breaks and gives characters
  back at the end of the text.
- **The AGENTS.md section** (`lib/utils/agents-md.js`), modules `AgentsMd`,
  `AgentsMdRoundTrip`, `AgentsMdMerge` and `AgentsMdTokens`:
  - reading the skill names back out of a document (the `while` loop over
    `exec`);
  - rendering the section;
  - replacing the section in a document, or removing it.

  Every regular expression is an explicit scan:
  - a leftmost match;
  - a lazy `[\s\S]*?X` that ends at the first `X`;
  - a `[^>]*>` that ends at the first `>`;
  - a global replace that copies the text between non-overlapping matches.
- **Localization** (`lib/localization.js`), module `Localization`. It covers
  `detectLanguage`, the English and Chinese message tables (every key), and
  `t`. `t` is a lookup with fallbacks, followed by `{placeholder}`
  substitution.
- **JavaScript string primitives** (`startsWith`, `indexOf`/`includes`,
  `trim`/`trimEnd`, `join`, `split`, literal global replace), module `Text`,
  with the facts about token occurrences the proofs reuse. `Wrappers` holds
  `Option` and `Result`.

The main results:
- **Read-back.** `parseCurrentSkills` applied to what `generateSkillsXml`
  renders returns the skills' trimmed names, in order, in any language,
  provided every name is non-empty and free of `<` (what `[^<]+` accepts)
  and no description holds `</skill>`. A name outside that is skipped by the
  scan, which reads the next skill's name in its place.
- **Outer-tag and append branches.** Both are idempotent: a second
  `replaceSkillsSection` with the same rendered section changes nothing, on
  a document that already holds a section or has neither marker, provided no
  skill's name or description holds `</skills_system>`. Such a tag ends the
  lazy outer match early, and a rerun leaves the tail of the section behind.
- **Marker branch.** The branch that re-targets the
  `<!-- SKILLS_TABLE_START -->` … `<!-- SKILLS_TABLE_END -->` comments is not
  idempotent, and the model exhibits the growth (see Findings).
- **Discovery.** Exactly one record per directory holding a `SKILL.md`, sorted
  by name.

Where the documented design and the code differ, the model follows the code:

- The marker branch replaces every START…END stretch, because the pattern has
  the `g` flag, and not only the first (`AgentsMd.ReplaceTables`).
- A document with `<skills_system` but no closing tag does not fall through to
  the next branch. The pattern simply fails to match, and the document comes
  back unchanged (`AgentsMdMerge.OuterWithoutClose`). The same holds for a
  start comment without an end comment (`AgentsMdMerge.InnerWithoutEnd`).
- `description:` followed by a blank value takes the next non-blank line,
  because `\s*` crosses line breaks (`Yaml.EmptyFieldTakesNextLine`).
- Rendering is not a pure function of the skills and the language as written.
  It throws, because the message table it destructures is not exported (see
  Findings). With the table in reach, the title and the usage guide render as
  the keys themselves, since neither table has them
  (`AgentsMd.GenerateSkillsXml`).
- Idempotence holds for documents that hold a complete section or no marker at
  all, not for every document.

## Model

| member | source | states |
|---|---|---|
| AgentsMd.LeadingRun | lib/utils/agents-md.js:8 | the run `([^<]+)` can take before `<\/name>`: the longest prefix without `<`; the next character, if any, is `<` |
| AgentsMd.NameFrom | lib/utils/agents-md.js:8 | a match of `[\s\S]*?<name>([^<]+)<\/name>[\s\S]*?<\/skill>` from index q ends after q and inside the text |
| AgentsMd.SkillAt | lib/utils/agents-md.js:8 | the skill pattern only matches where the text starts with `<skill>`, and every match consumes at least one character and stays inside the text |
| AgentsMd.Exec | lib/utils/agents-md.js:8-11 | `skillRegex.exec` from `lastIndex`: a match lies at or after `lastIndex`, is non-empty, ends inside the content, and its captured name is non-empty and holds no `<` |
| AgentsMd.TrimAll | lib/utils/agents-md.js:12 | one entry per capture, each the trimmed capture, in order |
| AgentsMd.SkillNamesStep | lib/utils/agents-md.js:11-12 | the match `exec` finds contributes the next trimmed name, and the global scan resumes at the end of that match |
| AgentsMd.SkillNamesDone | lib/utils/agents-md.js:11 | when `exec` finds nothing from `lastIndex`, the rest of the scan collects no name |
| AgentsMd.ParseCurrentSkills | lib/utils/agents-md.js:4-16 | the `while` loop returns exactly the names of the global scan: each leftmost non-overlapping match's capture, trimmed, in document order |
| AgentsMd.SkillNamesClean | lib/utils/agents-md.js:8-12 | every name returned is free of `<` and has no whitespace at either end |
| AgentsMd.SkillBlocks | lib/utils/agents-md.js:31-38 | one `<skill>` block per skill, in order, with name and description inserted verbatim |
| AgentsMd.SkillsXml | lib/utils/agents-md.js:40-54 | the rendered section starts with `<skills_system priority="1">` (so with `<skills_system`) and ends with `</skills_system>` |
| AgentsMd.GenerateSkillsXmlAsWritten | lib/utils/agents-md.js:21-55 | as written, every call fails whatever the skills and the language: `resources` is not among the localization module's exports, so the template's first `t('agentsSkillsTitle')` reads a property of `undefined` |
| AgentsMd.GenerateSkillsXml | lib/utils/agents-md.js:21-55 | with the message tables in reach, the section rendered in any language is the template with the keys `agentsSkillsTitle` and `agentsSkillsUsageGuide` themselves as title and guide, since neither table has them |
| AgentsMd.OpenTagAt | lib/utils/agents-md.js:66 | `<skills_system[^>]*>` matches only where the text starts with `<skills_system`, and the match ends with a `>` inside the text; OpenTagFirst states that it is the first one |
| AgentsMd.OpenTagFirst | lib/utils/agents-md.js:66 | no `>` stands between the tag name and the end of the match; when the tag name has no match, no `>` follows it at all |
| AgentsMd.SectionAt | lib/utils/agents-md.js:66 | the outer pattern at the start of the text needs an opening tag and ends with `</skills_system>` after it; SectionCloseFirst states that it is the first one |
| AgentsMd.SectionCloseFirst | lib/utils/agents-md.js:66 | the lazy `[\s\S]*?` stops at the first closing tag: none starts between the opening tag and the end of the match, and with an opening tag but no match none starts after it |
| AgentsMd.SectionSpan | lib/utils/agents-md.js:66-67 | the first match of the outer pattern is a non-empty stretch inside the document |
| AgentsMd.SectionSpanLeftmost | lib/utils/agents-md.js:66-67 | the span found is where the outer pattern is anchored, and it is anchored nowhere earlier; without a span it is anchored nowhere |
| AgentsMd.NoMarkerNoSection | lib/utils/agents-md.js:65-67 | without `<skills_system` in the document the outer pattern matches nowhere |
| AgentsMd.TableAt | lib/utils/agents-md.js:77-80 | the marker pattern matches only where the text starts with the start comment, and spans at least both comments; TableEndFirst states where it ends |
| AgentsMd.TableEndFirst | lib/utils/agents-md.js:77-80 | the match ends with an end comment, and no end comment starts earlier after the start comment; with a start comment but no match, none starts after it |
| AgentsMd.ReplaceTables | lib/utils/agents-md.js:77-81 | the global marker replace leaves a document without the start comment unchanged |
| AgentsMd.StripSectionTags | lib/utils/agents-md.js:76 | dropping every opening and closing section tag never lengthens the text, and a text holding neither `<skills_system` nor `</skills_system>` is kept as it is |
| AgentsMd.ReplaceSectionFirstMatch | lib/utils/agents-md.js:66-67 | `replace` without the `g` flag: the leftmost match of the outer pattern is cut out and the replacement put in its place, the text around kept; with no match anywhere the content is returned as it was |
| AgentsMd.AppendSection | lib/utils/agents-md.js:85 | the append branch keeps the document up to its trailing whitespace, then exactly `"\n\n"`, then the section and a final newline |
| AgentsMdRoundTrip.SectionShape | lib/utils/agents-md.js:31-54 | the rendered section is the fixed header, the skills' blocks in input order joined by a blank line, and the fixed footer |
| AgentsMdRoundTrip.ReadBackBetween | lib/utils/agents-md.js:8-13 | skill blocks between a head that ends a line and a foot, neither holding `<skill>`, are read back as the skills' names in order |
| AgentsMdRoundTrip.GeneratedSkillsReadBack | lib/utils/agents-md.js:31-54 | scanning a rendered section yields the trimmed names of the skills it was rendered from, in order, when title and guide hold no `<skill>` and every skill is readable (non-empty name without `<`, description not closing the tag) |
| AgentsMdRoundTrip.GenerateThenParse | lib/utils/agents-md.js:4-55 | `parseCurrentSkills(generateSkillsXml(skills, lang))` is the skills' trimmed names, in order, in any language, for skills whose names are non-empty and free of `<` and whose descriptions hold no `</skill>` |
| AgentsMdMerge.PrefixLacksOpen | lib/utils/agents-md.js:66-67 | the text before the first outer match holds no `<skills_system` |
| AgentsMdMerge.ReplaceSkillsSectionCases | lib/utils/agents-md.js:60-86 | `replaceSkillsSection` on every document: the first outer match (with no `<skills_system` before it) replaced and the text around kept; `<skills_system` without a match: unchanged; otherwise with the start comment: every marked table replaced by the wrapped section, unchanged without an end comment; neither marker: the section appended |
| AgentsMdMerge.RemoveSkillsSectionCases | lib/utils/agents-md.js:91-115 | `removeSkillsSection` on every document: the first outer match replaced by the removal note; `<skills_system` without a match: unchanged; otherwise every marked table replaced by the note between the markers, unchanged without an end comment; neither marker: unchanged |
| AgentsMdMerge.OuterReplace | lib/utils/agents-md.js:65-68 | with a complete section, replace puts the new section exactly in place of the first match, keeping the text before and after |
| AgentsMdMerge.OuterWithoutClose | lib/utils/agents-md.js:65-68 | an opening marker without any closing tag: replace and remove both return the document unchanged |
| AgentsMdMerge.ReplaceAgain | lib/utils/agents-md.js:65-68 | a section between text free of `<skills_system` and any text: replacing it with itself changes nothing, and removal swaps it for the note |
| AgentsMdMerge.OuterIdempotent | lib/utils/agents-md.js:65-68 | outer branch: a second replace with the same well-formed section gives the same document |
| AgentsMdMerge.AppendIdempotent | lib/utils/agents-md.js:85 | no marker of either kind: the result is `trimEnd(content) + "\n\n" + section + "\n"`, and a second run changes nothing |
| AgentsMdMerge.StripStepClose | lib/utils/agents-md.js:76 | text free of both section tags, then `</skills_system>`, then any text: the text is kept, the tag dropped and the rest stripped in turn |
| AgentsMdMerge.StripStepOpen | lib/utils/agents-md.js:76 | text free of both section tags, then `<skills_system`, attributes without `>` and a `>`, then any text: the text is kept, the whole opening tag dropped and the rest stripped in turn |
| AgentsMdMerge.StripTemplate | lib/utils/agents-md.js:76 | stripping the section tags from `<skills_system priority="1">` + body + `</skills_system>` gives the body back, when the body holds no section tag |
| AgentsMdMerge.GeneratedIsSection | lib/utils/agents-md.js:40-54 | a rendered section is exactly one match of the outer pattern when title, guide and skills hold no `</skills_system>` |
| AgentsMdMerge.RenderedReplaceIdempotent | lib/utils/agents-md.js:60-86 | a document with a complete section, or with no marker: replacing twice with `generateSkillsXml(skills, lang)` gives the same document as once, when no skill's name or description holds `</skills_system>` |
| AgentsMdMerge.TablesStep | lib/utils/agents-md.js:77-81 | one step of the global marker replace: text free of the start comment is kept, the table up to its first end comment replaced, the rest scanned on |
| AgentsMdMerge.TablesWithoutEnd | lib/utils/agents-md.js:77-81 | without an end comment the marker pattern never matches and the text is kept |
| AgentsMdMerge.InnerWithoutEnd | lib/utils/agents-md.js:74-82 | a start comment without an end comment: replace and remove both return the document unchanged |
| AgentsMdMerge.InnerOneTable | lib/utils/agents-md.js:74-82 | one table: replace puts START, newline, the section without its tags, newline, END in its place; remove puts the note between the markers; text around is kept |
| AgentsMdMerge.RemoveInnerIdempotent | lib/utils/agents-md.js:105-111 | marker branch of removal on one table: removing twice gives the same document as once |
| AgentsMdMerge.MarkedTemplate | lib/utils/agents-md.js:76-81 | the replacement built from a rendered section holds a complete START…END table followed by a blank line, a newline and a second END |
| AgentsMdMerge.InnerRerunGrows | lib/utils/agents-md.js:76-81 | marker branch run twice with the same rendered section: the second run keeps the first result and adds `"\n\n\n<!-- SKILLS_TABLE_END -->"` after the table |
| AgentsMdMerge.InnerNotIdempotent | lib/utils/agents-md.js:76-81 | hence the second run is strictly longer than the first |
| AgentsMdMerge.TemplateTable | lib/utils/agents-md.js:44-52 | the first START…END table of a rendered section is its own start comment, usage guide, skill list and end comment |
| AgentsMdMerge.FixedOneTable | lib/utils/agents-md.js:74-82 | corrected marker branch on one table: the table becomes the section's own table, the text around is kept |
| AgentsMdMerge.ReplaceSkillsSectionFixed | lib/utils/agents-md.js:60-86 | the corrected function agrees with `replaceSkillsSection` on every document, except in the marker branch when the new section holds a START…END table of its own |
| AgentsMdMerge.FixedIdempotent | lib/utils/agents-md.js:74-82 | corrected marker branch, only on a document without `<skills_system` that holds exactly one START…END table (no start comment before or after it) and a rendered section whose title, guide and skills hold no marker: the first run puts the section's own table in place, and a second run changes nothing |
| Skills.Collect | lib/utils/skills.js:17-30 | the loop pushes one record per directory entry holding a SKILL.md |
| Skills.CollectMembers | lib/utils/skills.js:17-30 | the records are exactly those of the qualifying entries, named after the entry, with the description its SKILL.md yields |
| Skills.NameLeTotal | lib/utils/skills.js:32 | any two names are comparable |
| Skills.NameLeTransitive | lib/utils/skills.js:32 | the name order is transitive |
| Skills.NameLeAntisymmetric | lib/utils/skills.js:32 | names ordered both ways are equal |
| Skills.SortedPairwise | lib/utils/skills.js:32 | in a sorted list every earlier name is at most every later one |
| Skills.InsertAt | lib/utils/skills.js:32 | one insertion step extends the sorted prefix by one record: the first i + 1 records are sorted and a permutation of what they were, and the records after them are untouched |
| Skills.SortByName | lib/utils/skills.js:32 | the in-place sort leaves the array sorted by name and a permutation of what it held |
| Skills.FindAllSkills | lib/utils/skills.js:7-33 | no directory: no records; otherwise one record per directory entry holding a SKILL.md, exactly those, sorted by name |
| Yaml.LineRun | lib/utils/yaml.js:5 | what greedy `.+` takes: the longest prefix without a line terminator |
| Yaml.ValueCapture | lib/utils/yaml.js:5 | a capture of `\s*(.+)$` is non-empty and holds no line terminator |
| Yaml.ValueCaptureIff | lib/utils/yaml.js:5 | `\s*(.+)$` matches exactly when the rest of the text holds a character other than a line terminator |
| Yaml.FieldAtIff | lib/utils/yaml.js:5 | the field pattern matches at a position exactly when `field:` starts there and a value character follows somewhere |
| Yaml.FieldScanLeftmost | lib/utils/yaml.js:5 | the multiline search finds a match no later than any line start where the pattern matches |
| Yaml.ExtractYamlField | lib/utils/yaml.js:4-7 | the value is trimmed and lies on one line; which value it is, is stated by FirstMatchingLineDecides and NoFieldLineGivesEmpty |
| Yaml.FirstMatchingLineDecides | lib/utils/yaml.js:5-6 | the value is the trimmed capture at the first line start where the pattern matches |
| Yaml.NoFieldLineGivesEmpty | lib/utils/yaml.js:6 | when the pattern matches at no line start, the value is the empty string; this includes `field:` lines with nothing after them that `.+` can take |
| Yaml.MatchBeginsLine | lib/utils/yaml.js:5 | a match always begins a line and starts with `field:` |
| Yaml.ValueCrossesLines | lib/utils/yaml.js:5 | after `field:`, `\s*` crosses whitespace and line breaks, and the capture is the rest of the first line starting with a non-space |
| Yaml.EmptyFieldTakesNextLine | lib/utils/yaml.js:5 | an empty `field:` line followed by a non-blank line yields that next line |
| Yaml.HasValidFrontmatter | lib/utils/yaml.js:12-14 | `hasValidFrontmatter` holds exactly when the text after leading whitespace begins with `---` |
| Localization.Or | lib/localization.js:11 | `a \|\| b` on optional strings: the result is set exactly when one operand is non-empty, and is never empty |
| Localization.Lower | lib/localization.js:15-17 | lower-casing keeps the length and maps each character |
| Localization.DetectLanguage | lib/localization.js:9-38 | the language detected is always `en` or `zh` |
| Localization.EnvDecides | lib/localization.js:11-22 | once an environment value is set, the locale is never consulted |
| Localization.EnvPriority | lib/localization.js:11 | `LANG` before `LC_ALL` before `LANGUAGE`, empty values skipped |
| Localization.EnvChineseIff | lib/localization.js:13-21 | with an environment value, Chinese exactly when its lower-cased form contains `zh_cn`, `zh-cn` or `zh_hans` |
| Localization.LocaleChineseIff | lib/localization.js:24-37 | without an environment value, Chinese exactly when the locale is returned and starts with `zh` in lower case; a missing or throwing locale gives English |
| Localization.TraditionalChineseEnvIsEnglish | lib/localization.js:13-21 | `LANG=zh_TW` gives English |
| Localization.Lookup | lib/localization.js:200-201 | the text for the language, else the English text, else the key; empty texts fall through |
| Localization.Token | lib/localization.js:205 | the placeholder token is the name between braces |
| Localization.Translate | lib/localization.js:199-209 | the loop over the placeholders yields the looked-up text with every placeholder replaced at each occurrence, in key order |
| Localization.ApplyPlaceholders | lib/localization.js:204-206 | placeholders whose token does not occur leave the text unchanged |
| Localization.SinglePlaceholder | lib/localization.js:204-206 | one placeholder: the text cut at every occurrence of the token and joined with the value; cutting and joining with the token gives the text back |
| Localization.TemplateKeysMissing | lib/localization.js:41-188 | neither table has `agentsSkillsTitle` nor `agentsSkillsUsageGuide`, so the lookup returns those keys in every language |
| Localization.ChineseInstallingTo | lib/localization.js:185 | the Chinese `installingTo` text is the label followed by the `{path}` token |
| Localization.InstallingToExample | lib/localization.js:199-208 | `t('installingTo', { path })` in Chinese puts the path right after the translated label |
| Text.IndexOf | lib/utils/agents-md.js:65 | `indexOf`: the leftmost occurrence, and no occurrence at all when none is reported |
| Text.ExecFrom | lib/utils/agents-md.js:11 | `exec` from `lastIndex` finds a non-empty match at or after `lastIndex` inside the text |
| Text.ExecFromLeftmost | lib/utils/agents-md.js:11 | the match `exec` finds is anchored at its start and nowhere between `lastIndex` and there; without one, anchored nowhere from `lastIndex` on |
| Text.ExecFromStep | lib/utils/agents-md.js:11-12 | the match `exec` finds is the next capture of the global scan, which resumes at its end |
| Text.TrimStart | lib/utils/yaml.js:5 | a suffix of the text, everything dropped is whitespace, and it does not start with whitespace |
| Text.TrimEnd | lib/utils/agents-md.js:85 | a prefix of the text, everything dropped is whitespace, and it does not end with whitespace |
| Text.Trim | lib/utils/agents-md.js:12 | a contiguous stretch of the text with only whitespace dropped before and after it, and no whitespace at either of its ends |
| Text.ReplaceAll | lib/localization.js:205 | a global literal replace leaves a text without the token unchanged |
| Text.ReplaceAllIsSplitJoin | lib/localization.js:205 | a global literal replace is a split at the token followed by a join with the replacement |

## Left out

- Replacement patterns: the model inserts the replacement text literally. JavaScript's `String.prototype.replace` would expand `$&`, `$1`, `$$` and the like inside a new section, a description or a placeholder value.
- Regular-expression metacharacters in the `field` argument of `extractYamlField`: the source interpolates the field into the pattern unescaped, and the model matches it as literal text.
- Skills.SortByName: `localeCompare` is modelled as the ordinal code-point order, and the model states that the result is sorted and a permutation, not that the sort is stable. Names come from distinct directory entries, so equal names do not arise.
- Localization.Lower: `toLowerCase` folds the ASCII letters only; locale and Unicode case mapping are not modelled.
- Strings are sequences of Unicode scalar values, not UTF-16 code units. `.`, `[^<]` and `\s` are read per character.
- File system access in `findAllSkills` (`existsSync`, `readdirSync`, `readFileSync`, `process.cwd()`): the listing of `.claude/skills` is an input, with each entry's name, whether it is a directory and the text of its SKILL.md.
- `process.env`, `os.locale()` and the module-level `currentLang`: they are parameters (`DetectLanguage` takes the three variables and the locale outcome; `Translate` takes the language).
- Property lookups through the object prototype (`resources['constructor']`, a key such as `toString`): only the tables' own keys are modelled.
- Localization.Translate: the placeholder object is a list of (name, value) string pairs in key order. Non-string values and the integer-keys-first order of `Object.keys` are not modelled.
- The default `lang = 'en'` of `generateSkillsXml` is not modelled as a default: the language is always passed.
- AgentsMdMerge.ReplaceSkillsSectionFixed: when the new section holds no complete table it falls back to the as-written wrapping. Only the one-table case is proved idempotent.
- AgentsMdMerge.FixedIdempotent: proved for documents with a single START…END table only. With several tables the corrected branch replaces each, and idempotence there is not stated.
- bin/install.js, bin/sync.js and lib/utils/dirs.js are not part of this model (command-line flow, file writes, directory resolution).

## Findings

| source | as written | input that shows it | evidently intended | confidence | as-written member | corrected member |
|---|---|---|---|---|---|---|
| lib/utils/agents-md.js:22 | `generateSkillsXml` destructures `resources` from `../localization`, whose exports (lib/localization.js:211-215) are `t`, `currentLang` and `detectLanguage` only, so `resources[lang]` reads a property of `undefined` and throws | any call, e.g. `generateSkillsXml([], 'en')` | the title and guide looked up in the message tables with the fallbacks of the local `t`; the rendered section then reads back as the skills' names (`AgentsMdRoundTrip.GenerateThenParse`) | not executed | AgentsMd.GenerateSkillsXmlAsWritten | AgentsMd.GenerateSkillsXml |
| lib/utils/agents-md.js:76-81 | the marker branch puts the whole section, stripped of its `<skills_system>` tags but still holding its own START…END table, between a new START and END. On the next run the lazy pattern stops at the inner END, so every run leaves another `"\n\n\n<!-- SKILLS_TABLE_END -->"` behind | a document `"<!-- SKILLS_TABLE_START -->old<!-- SKILLS_TABLE_END -->"` and `replaceSkillsSection` applied twice with the same rendered section | each table replaced by the rendered section's own START…END table, so that a second run changes nothing | not executed | AgentsMdMerge.InnerRerunGrows | AgentsMdMerge.FixedIdempotent |

The as-written functions (`AgentsMd.ReplaceSkillsSection`, `AgentsMd.GenerateSkillsXmlAsWritten`) are what the source does. `AgentsMd.GenerateSkillsXml` is the rendering with the tables in reach, and the rest of the model renders through it. `AgentsMdMerge.ReplaceSkillsSectionFixed` differs from `ReplaceSkillsSection` only in the marker branch.
