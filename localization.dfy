/**
 * Localization (lib/localization.js): language detection from the
 * environment and the OS locale, the English and Chinese message tables, and
 * `t`, a table lookup with fallbacks followed by `{placeholder}` substitution.
 * The environment variables, the locale query and the current language are
 * inputs here instead of process state read at module load.
 */
module Localization {
  import opened Wrappers
  import opened Text

  // ---------------------------------------------------------------------
  // detectLanguage
  // ---------------------------------------------------------------------

  /** What `os.locale` yields: no such function, a call that throws, or the value it returns (None for null/undefined). */
  datatype LocaleQuery = NoLocaleFunction | LocaleThrows | LocaleValue(value: Option<string>)

  /** `a || b` on optional strings: absent and empty values are falsy. */
  function Or(a: Option<string>, b: Option<string>): (r: Option<string>)
    ensures r.Some? ==> r.value != ""
    ensures r.None? <==> (a.None? || a.value == "") && (b.None? || b.value == "")
  {
    if a.Some? && a.value != "" then a
    else if b.Some? && b.value != "" then b
    else None
  }

  /** `c.toLowerCase()` on the ASCII letters. */
  function LowerChar(c: char): char {
    if 'A' <= c <= 'Z' then (c as int + 32) as char else c
  }

  /** `s.toLowerCase()`, folding ASCII letters only. */
  function Lower(s: string): (r: string)
    ensures |r| == |s|
    ensures forall i :: 0 <= i < |s| ==> r[i] == LowerChar(s[i])
  {
    seq(|s|, i requires 0 <= i < |s| => LowerChar(s[i]))
  }

  /** The environment value the language is taken from: `LANG || LC_ALL || LANGUAGE`. */
  function LangEnv(lang: Option<string>, lcAll: Option<string>, language: Option<string>): Option<string> {
    Or(Or(lang, lcAll), language)
  }

  /** An environment value names simplified Chinese. */
  predicate IsChineseEnv(v: string) {
    var l := Lower(v);
    Contains(l, "zh_cn") || Contains(l, "zh-cn") || Contains(l, "zh_hans")
  }

  /**
   * `detectLanguage()`: a non-empty environment value decides; without one,
   * a locale starting with `zh` gives Chinese; everything else, a missing
   * locale function and a throwing call included, gives English.
   */
  function DetectLanguage(lang: Option<string>, lcAll: Option<string>, language: Option<string>, locale: LocaleQuery): (r: string)
    ensures r == "en" || r == "zh"
  {
    match LangEnv(lang, lcAll, language)
    case Some(v) => if IsChineseEnv(v) then "zh" else "en"
    case None =>
      match locale
      case LocaleValue(Some(l)) =>
        if l != "" && StartsWith(Lower(l), "zh") then "zh" else "en"
      case _ => "en"
  }

  /** When an environment value is set the locale is never consulted. */
  lemma EnvDecides(lang: Option<string>, lcAll: Option<string>, language: Option<string>, l1: LocaleQuery, l2: LocaleQuery)
    requires LangEnv(lang, lcAll, language).Some?
    ensures DetectLanguage(lang, lcAll, language, l1) == DetectLanguage(lang, lcAll, language, l2)
  {
  }

  /** `LANG` takes priority over `LC_ALL`, which takes priority over `LANGUAGE`; empty values are skipped. */
  lemma EnvPriority(lang: Option<string>, lcAll: Option<string>, language: Option<string>)
    ensures lang.Some? && lang.value != "" ==> LangEnv(lang, lcAll, language) == lang
    ensures (lang.None? || lang.value == "") && lcAll.Some? && lcAll.value != "" ==> LangEnv(lang, lcAll, language) == lcAll
    ensures (lang.None? || lang.value == "") && (lcAll.None? || lcAll.value == "") ==> LangEnv(lang, lcAll, language) == Or(language, None)
  {
  }

  /** With an environment value, Chinese exactly when its lower-cased form names `zh_cn`, `zh-cn` or `zh_hans`. */
  lemma EnvChineseIff(lang: Option<string>, lcAll: Option<string>, language: Option<string>, locale: LocaleQuery)
    requires LangEnv(lang, lcAll, language).Some?
    ensures var v := LangEnv(lang, lcAll, language).value;
      DetectLanguage(lang, lcAll, language, locale) == "zh" <==>
        (Contains(Lower(v), "zh_cn") || Contains(Lower(v), "zh-cn") || Contains(Lower(v), "zh_hans"))
  {
  }

  /** Without an environment value, Chinese exactly when the locale is returned, non-empty and starts with `zh` in lower case. */
  lemma LocaleChineseIff(lang: Option<string>, lcAll: Option<string>, language: Option<string>, locale: LocaleQuery)
    requires LangEnv(lang, lcAll, language).None?
    ensures DetectLanguage(lang, lcAll, language, locale) == "zh" <==>
      (locale.LocaleValue? && locale.value.Some? && StartsWith(Lower(locale.value.value), "zh"))
  {
  }

  /** Traditional Chinese in the environment, `zh_TW`, gives English. */
  lemma TraditionalChineseEnvIsEnglish(locale: LocaleQuery)
    ensures DetectLanguage(Some("zh_TW"), None, None, locale) == "en"
  {
    var l := Lower("zh_TW");
    assert l == "zh_tw";
    LacksByChar(l, "zh_cn", 'c');
    LacksByChar(l, "zh-cn", 'c');
    LacksByChar(l, "zh_hans", 'a');
  }

  // ---------------------------------------------------------------------
  // Message tables and t
  // ---------------------------------------------------------------------

  /** The install script messages of the `en` table. */
  function EnglishInstall(key: string): Option<string> {
    if key == "installing" then Some("\U{1F680} Installing Open Skilled SDD for Claude Code...")
    else if key == "dryRunMode" then Some("\U{26A0}\U{FE0F}  Dry run mode - no files will be copied")
    else if key == "creatingDir" then Some("\U{1F4C1} Creating .claude directory...")
    else if key == "createdDir" then Some("   \U{2713} Created .claude/")
    else if key == "dirExists" then Some("   \U{2713} .claude/ already exists")
    else if key == "installingSkills" then Some("\U{1F4E6} Installing skills...")
    else if key == "installedSkill" then Some("   \U{2713} {skill}")
    else if key == "configuringSettings" then Some("\U{2699}\U{FE0F}  Configuring settings...")
    else if key == "updatedSettings" then Some("   \U{2713} Updated existing settings.json")
    else if key == "parseError" then Some("   \U{26A0} Could not parse existing settings.json, creating new one")
    else if key == "createdSettings" then Some("   \U{2713} Created settings.json")
    else if key == "dryRunComplete" then Some("\U{26A0}\U{FE0F}  Dry run complete - no files were modified")
    else if key == "installationComplete" then Some("\U{2728} Installation complete!")
    else if key == "skillsInstalledTo" then Some("Skills installed to:")
    else if key == "skillsPath" then Some("   {path}/")
    else if key == "nextSteps" then Some("\U{1F4DA} Next steps:")
    else if key == "stepAutoSync" then Some("   1. Skills automatically synced to AGENTS.md \U{2713}")
    else if key == "stepStartClaude" then Some("   2. Start Claude Code: claude")
    else if key == "stepTryExample" then Some("   3. Try: \"openspec proposal for user authentication\"")
    else if key == "learnMore" then Some("\U{1F517} Learn more: https://github.com/forztf/open-skilled-sdd")
    else if key == "syncingSkills" then Some("\U{1F504} Syncing skills to AGENTS.md...")
    else if key == "syncComplete" then Some("\U{2705} Synced {count} skill(s) to AGENTS.md")
    else if key == "syncAddedSection" then Some("\U{2705} Added skills section to AGENTS.md ({count} skill(s))")
    else if key == "skippingSync" then Some("\U{26A0}\U{FE0F}  Sync skipped: {message}")
    else if key == "copyError" then Some("   \U{2717} Copy error: {message}")
    else None
  }

  /** The error messages of the `en` table. */
  function EnglishErrors(key: string): Option<string> {
    if key == "installFailed" then Some("\U{274C} Installation failed:")
    else if key == "syncFailed" then Some("\U{274C} Sync failed:")
    else if key == "copyFailed" then Some("\U{274C} Copy failed:")
    else if key == "unknownCommand" then Some("\U{274C} Unknown command: {command}")
    else if key == "commandHelp" then Some("   \U{8FD0}\U{884C} 'open-skilled-sdd --help' \U{67E5}\U{770B}\U{53EF}\U{7528}\U{547D}\U{4EE4}")
    else None
  }

  /** The CLI help of the `en` table. */
  function EnglishCli(key: string): Option<string> {
    if key == "cliTitle" then Some("\U{1F680} Open Skilled SDD - Open Specification Driven Development")
    else if key == "usage" then Some("Usage:")
    else if key == "cliUsage" then Some("   open-skilled-sdd [command] [options]")
    else if key == "commands" then Some("Commands:")
    else if key == "cmdDefault" then Some("   (no command)    Install skills and auto-sync to AGENTS.md (default)")
    else if key == "cmdInstall" then Some("   install     Install skills and auto-sync to AGENTS.md")
    else if key == "cmdSync" then Some("   sync        Sync skills to AGENTS.md only (manual sync)")
    else if key == "cmdHelp" then Some("   --help, -h  Show help information")
    else if key == "cmdVersion" then Some("   --version   Show version number")
    else if key == "options" then Some("Options:")
    else if key == "optDryRun" then Some("   --dry-run           Dry run installation (no files copied)")
    else if key == "optGlobal" then Some("   --global, -g        Global install (to ~/.claude/skills/)")
    else if key == "optYes" then Some("   --yes, -y           (Deprecated) sync uses auto mode by default")
    else if key == "features" then Some("Features:")
    else if key == "featAutoCreate" then Some("   \U{2022} Auto-create AGENTS.md (if not exists)")
    else if key == "featAutoSync" then Some("   \U{2022} Auto-sync all skills to AGENTS.md after install")
    else if key == "featManualSync" then Some("   \U{2022} sync command for manual sync (use after adding skills)")
    else if key == "examples" then Some("Examples:")
    else if key == "exInstall" then Some("   open-skilled-sdd              # Install and auto-sync")
    else if key == "exInstall2" then Some("   open-skilled-sdd install      # Explicit install with auto-sync")
    else if key == "exSync" then Some("   open-skilled-sdd sync         # Sync only (manual)")
    else if key == "exNpx" then Some("   npx open-skilled-sdd          # Use without global install")
    else None
  }

  /** The sync script messages of the `en` table. */
  function EnglishSync(key: string): Option<string> {
    if key == "creatingAgentsMd" then Some("\U{1F4C4} Creating AGENTS.md...")
    else if key == "createdAgentsMd" then Some("   \U{2713} Created AGENTS.md")
    else if key == "noSkillsInstalled" then Some("No skills installed. Install skills first:")
    else if key == "noSkillsCommand" then Some("  open-skilled-sdd")
    else if key == "errorSyncSkills" then Some("Error syncing skills:")
    else if key == "warningOverwrite" then Some("\U{26A0}\U{FE0F}  Warning: This will replace the existing skills section in AGENTS.md")
    else if key == "confirmOverwrite" then Some("Do you want to continue?")
    else None
  }

  /** The other messages of the `en` table. */
  function EnglishOther(key: string): Option<string> {
    if key == "syncSkipped" then Some("Sync skipped")
    else if key == "installingTo" then Some("Installing to: {path}")
    else if key == "globalInstall" then Some("Global install detected (~/.claude/)")
    else None
  }

  /** The first of two lookups that finds an entry; the sections of a table hold distinct keys. */
  function First(a: Option<string>, b: Option<string>): (r: Option<string>)
    ensures r.Some? <==> a.Some? || b.Some?
    ensures a.Some? ==> r == a
  {
    if a.Some? then a else b
  }

  /** The `en` entries of the `resources` table: the text stored under `key`, if any. */
  function English(key: string): Option<string> {
    First(EnglishInstall(key), First(EnglishErrors(key), First(EnglishCli(key), First(EnglishSync(key), EnglishOther(key)))))
  }

  /** The install script messages of the `zh` table. */
  function ChineseInstall(key: string): Option<string> {
    if key == "installing" then Some("\U{1F680} \U{6B63}\U{5728}\U{5B89}\U{88C5} Open Skilled SDD for Claude Code...")
    else if key == "dryRunMode" then Some("\U{26A0}\U{FE0F}  \U{8BD5}\U{8FD0}\U{884C}\U{6A21}\U{5F0F} - \U{4E0D}\U{4F1A}\U{5B9E}\U{9645}\U{590D}\U{5236}\U{6587}\U{4EF6}")
    else if key == "creatingDir" then Some("\U{1F4C1} \U{521B}\U{5EFA} .claude \U{76EE}\U{5F55}...")
    else if key == "createdDir" then Some("   \U{2713} \U{5DF2}\U{521B}\U{5EFA} .claude/")
    else if key == "dirExists" then Some("   \U{2713} .claude/ \U{5DF2}\U{5B58}\U{5728}")
    else if key == "installingSkills" then Some("\U{1F4E6} \U{6B63}\U{5728}\U{5B89}\U{88C5}\U{6280}\U{80FD}...")
    else if key == "installedSkill" then Some("   \U{2713} {skill}")
    else if key == "configuringSettings" then Some("\U{2699}\U{FE0F}  \U{914D}\U{7F6E}\U{8BBE}\U{7F6E}...")
    else if key == "updatedSettings" then Some("   \U{2713} \U{5DF2}\U{66F4}\U{65B0} settings.json")
    else if key == "parseError" then Some("   \U{26A0} \U{65E0}\U{6CD5}\U{89E3}\U{6790}\U{73B0}\U{6709}\U{7684} settings.json\U{FF0C}\U{5C06}\U{521B}\U{5EFA}\U{65B0}\U{7684}\U{6587}\U{4EF6}")
    else if key == "createdSettings" then Some("   \U{2713} \U{5DF2}\U{521B}\U{5EFA} settings.json")
    else if key == "dryRunComplete" then Some("\U{26A0}\U{FE0F}  \U{8BD5}\U{8FD0}\U{884C}\U{5B8C}\U{6210} - \U{672A}\U{4FEE}\U{6539}\U{4EFB}\U{4F55}\U{6587}\U{4EF6}")
    else if key == "installationComplete" then Some("\U{2728} \U{5B89}\U{88C5}\U{5B8C}\U{6210}\U{FF01}")
    else if key == "skillsInstalledTo" then Some("\U{6280}\U{80FD}\U{5DF2}\U{5B89}\U{88C5}\U{5230}:")
    else if key == "skillsPath" then Some("   {path}/")
    else if key == "nextSteps" then Some("\U{1F4DA} \U{4E0B}\U{4E00}\U{6B65}:")
    else if key == "stepAutoSync" then Some("   1. \U{6280}\U{80FD}\U{5DF2}\U{81EA}\U{52A8}\U{540C}\U{6B65}\U{5230} AGENTS.md \U{2713}")
    else if key == "stepStartClaude" then Some("   2. \U{542F}\U{52A8} Claude Code: claude")
    else if key == "stepTryExample" then Some("   3. \U{5C1D}\U{8BD5}: \"openspec proposal for user authentication\"")
    else if key == "learnMore" then Some("\U{1F517} \U{4E86}\U{89E3}\U{66F4}\U{591A}: https://github.com/forztf/open-skilled-sdd")
    else if key == "syncingSkills" then Some("\U{1F504} \U{6B63}\U{5728}\U{540C}\U{6B65}\U{6280}\U{80FD}\U{5230} AGENTS.md...")
    else if key == "syncComplete" then Some("\U{2705} \U{5DF2}\U{540C}\U{6B65} {count} \U{4E2A}\U{6280}\U{80FD}\U{5230} AGENTS.md")
    else if key == "syncAddedSection" then Some("\U{2705} \U{5DF2}\U{6DFB}\U{52A0}\U{6280}\U{80FD}\U{7AE0}\U{8282}\U{5230} AGENTS.md ({count} \U{4E2A}\U{6280}\U{80FD})")
    else if key == "skippingSync" then Some("\U{26A0}\U{FE0F}  \U{540C}\U{6B65}\U{5DF2}\U{8DF3}\U{8FC7}: {message}")
    else if key == "copyError" then Some("   \U{2717} \U{590D}\U{5236}\U{9519}\U{8BEF}: {message}")
    else None
  }

  /** The error messages of the `zh` table. */
  function ChineseErrors(key: string): Option<string> {
    if key == "installFailed" then Some("\U{274C} \U{5B89}\U{88C5}\U{5931}\U{8D25}:")
    else if key == "syncFailed" then Some("\U{274C} \U{540C}\U{6B65}\U{5931}\U{8D25}:")
    else if key == "copyFailed" then Some("\U{274C} \U{590D}\U{5236}\U{5931}\U{8D25}:")
    else if key == "unknownCommand" then Some("\U{274C} \U{672A}\U{77E5}\U{547D}\U{4EE4}: {command}")
    else if key == "commandHelp" then Some("   \U{8FD0}\U{884C} 'open-skilled-sdd --help' \U{67E5}\U{770B}\U{53EF}\U{7528}\U{547D}\U{4EE4}")
    else None
  }

  /** The CLI help of the `zh` table. */
  function ChineseCli(key: string): Option<string> {
    if key == "cliTitle" then Some("\U{1F680} Open Skilled SDD - \U{5F00}\U{653E}\U{5F0F}\U{89C4}\U{8303}\U{9A71}\U{52A8}\U{5F00}\U{53D1}")
    else if key == "usage" then Some("\U{7528}\U{6CD5}:")
    else if key == "cliUsage" then Some("   open-skilled-sdd [\U{547D}\U{4EE4}] [\U{9009}\U{9879}]")
    else if key == "commands" then Some("\U{547D}\U{4EE4}:")
    else if key == "cmdDefault" then Some("   (\U{65E0}\U{547D}\U{4EE4})    \U{5B89}\U{88C5}\U{6280}\U{80FD}\U{5E76}\U{81EA}\U{52A8}\U{540C}\U{6B65}\U{5230} AGENTS.md (\U{9ED8}\U{8BA4})")
    else if key == "cmdInstall" then Some("   install     \U{5B89}\U{88C5}\U{6280}\U{80FD}\U{5E76}\U{81EA}\U{52A8}\U{540C}\U{6B65}\U{5230} AGENTS.md")
    else if key == "cmdSync" then Some("   sync        \U{4EC5}\U{540C}\U{6B65}\U{6280}\U{80FD}\U{5230} AGENTS.md (\U{624B}\U{52A8}\U{540C}\U{6B65}\U{65F6}\U{4F7F}\U{7528})")
    else if key == "cmdHelp" then Some("   --help, -h  \U{663E}\U{793A}\U{6B64}\U{5E2E}\U{52A9}\U{4FE1}\U{606F}")
    else if key == "cmdVersion" then Some("   --version   \U{663E}\U{793A}\U{7248}\U{672C}\U{53F7}")
    else if key == "options" then Some("\U{9009}\U{9879}:")
    else if key == "optDryRun" then Some("   --dry-run           \U{8BD5}\U{8FD0}\U{884C}\U{5B89}\U{88C5}\U{FF08}\U{4E0D}\U{5B9E}\U{9645}\U{590D}\U{5236}\U{6587}\U{4EF6}\U{FF09}")
    else if key == "optGlobal" then Some("   --global, -g        \U{5168}\U{5C40}\U{5B89}\U{88C5}\U{FF08}\U{5B89}\U{88C5}\U{5230} ~/.claude/skills/\U{FF09}")
    else if key == "optYes" then Some("   --yes, -y           \U{FF08}\U{5DF2}\U{5E9F}\U{5F03}\U{FF09}sync \U{9ED8}\U{8BA4}\U{4E3A}\U{81EA}\U{52A8}\U{6A21}\U{5F0F}")
    else if key == "features" then Some("\U{529F}\U{80FD}\U{7279}\U{6027}:")
    else if key == "featAutoCreate" then Some("   \U{2022} \U{81EA}\U{52A8}\U{521B}\U{5EFA} AGENTS.md\U{FF08}\U{5982}\U{4E0D}\U{5B58}\U{5728}\U{FF09}")
    else if key == "featAutoSync" then Some("   \U{2022} \U{5B89}\U{88C5}\U{540E}\U{81EA}\U{52A8}\U{540C}\U{6B65}\U{6240}\U{6709}\U{6280}\U{80FD}\U{5230} AGENTS.md")
    else if key == "featManualSync" then Some("   \U{2022} sync \U{547D}\U{4EE4}\U{7528}\U{4E8E}\U{624B}\U{52A8}\U{540C}\U{6B65}\U{FF08}\U{589E}\U{52A0}\U{6280}\U{80FD}\U{540E}\U{4F7F}\U{7528}\U{FF09}")
    else if key == "examples" then Some("\U{793A}\U{4F8B}:")
    else if key == "exInstall" then Some("   open-skilled-sdd              # \U{5B89}\U{88C5}\U{5E76}\U{81EA}\U{52A8}\U{540C}\U{6B65}")
    else if key == "exInstall2" then Some("   open-skilled-sdd install      # \U{663E}\U{5F0F}\U{5B89}\U{88C5}\U{5E76}\U{81EA}\U{52A8}\U{540C}\U{6B65}")
    else if key == "exSync" then Some("   open-skilled-sdd sync         # \U{4EC5}\U{540C}\U{6B65}\U{FF08}\U{624B}\U{52A8}\U{540C}\U{6B65}\U{FF09}")
    else if key == "exNpx" then Some("   npx open-skilled-sdd          # \U{65E0}\U{9700}\U{5168}\U{5C40}\U{5B89}\U{88C5}\U{76F4}\U{63A5}\U{4F7F}\U{7528}")
    else None
  }

  /** The sync script messages of the `zh` table. */
  function ChineseSync(key: string): Option<string> {
    if key == "creatingAgentsMd" then Some("\U{1F4C4} \U{521B}\U{5EFA} AGENTS.md...")
    else if key == "createdAgentsMd" then Some("   \U{2713} \U{5DF2}\U{521B}\U{5EFA} AGENTS.md")
    else if key == "noSkillsInstalled" then Some("\U{672A}\U{5B89}\U{88C5}\U{4EFB}\U{4F55}\U{6280}\U{80FD}\U{3002}\U{8BF7}\U{5148}\U{5B89}\U{88C5}\U{6280}\U{80FD}:")
    else if key == "noSkillsCommand" then Some("  open-skilled-sdd")
    else if key == "errorSyncSkills" then Some("\U{540C}\U{6B65}\U{6280}\U{80FD}\U{65F6}\U{51FA}\U{9519}:")
    else if key == "warningOverwrite" then Some("\U{26A0}\U{FE0F}  \U{8B66}\U{544A}: \U{8FD9}\U{5C06}\U{66FF}\U{6362} AGENTS.md \U{4E2D}\U{73B0}\U{6709}\U{7684}\U{6280}\U{80FD}\U{7AE0}\U{8282}")
    else if key == "confirmOverwrite" then Some("\U{662F}\U{5426}\U{7EE7}\U{7EED}?")
    else None
  }

  /** The other messages of the `zh` table. */
  function ChineseOther(key: string): Option<string> {
    if key == "syncSkipped" then Some("\U{540C}\U{6B65}\U{5DF2}\U{8DF3}\U{8FC7}")
    else if key == "installingTo" then Some("\U{5B89}\U{88C5}\U{5230}: {path}")
    else if key == "globalInstall" then Some("\U{68C0}\U{6D4B}\U{5230}\U{5168}\U{5C40}\U{5B89}\U{88C5} (~/.claude/)")
    else None
  }

  /** The `zh` entries of the `resources` table. */
  function Chinese(key: string): Option<string> {
    First(ChineseInstall(key), First(ChineseErrors(key), First(ChineseCli(key), First(ChineseSync(key), ChineseOther(key)))))
  }

  /** `resources[lang][key]`, with the English entries for a language the table does not have (`resources[lang] || resources.en`). */
  function Message(lang: string, key: string): Option<string> {
    if lang == "zh" then Chinese(key) else English(key)
  }

  /** A stored text that is non-empty, which is what `||` lets through. */
  predicate Usable(m: Option<string>) {
    m.Some? && m.value != ""
  }

  /** The text `t` starts from: the entry for `lang`, else the English entry, else the key; empty entries fall through. */
  function Lookup(lang: string, key: string): (r: string)
    ensures Usable(Message(lang, key)) ==> r == Message(lang, key).value
    ensures !Usable(Message(lang, key)) && Usable(English(key)) ==> r == English(key).value
    ensures !Usable(Message(lang, key)) && !Usable(English(key)) ==> r == key
  {
    var m := Message(lang, key);
    if m.Some? && m.value != "" then m.value
    else
      var e := English(key);
      if e.Some? && e.value != "" then e.value
      else key
  }

  /** The placeholder token `{name}`, matched as literal text. */
  function Token(name: string): (r: string)
    ensures |r| == |name| + 2 && r[0] == '{' && r[|r| - 1] == '}'
  {
    "{" + name + "}"
  }

  /**
   * Every placeholder, in the order its key was supplied, replaced at each of
   * its occurrences. Placeholders whose token does not occur in the text leave
   * it as it is.
   */
  function ApplyPlaceholders(text: string, placeholders: seq<(string, string)>): (r: string)
    ensures (forall p :: p in placeholders ==> !Contains(text, Token(p.0))) ==> r == text
    decreases |placeholders|
  {
    if |placeholders| == 0 then text
    else
      var init := placeholders[..|placeholders| - 1];
      var last := placeholders[|placeholders| - 1];
      assert forall p :: p in init ==> p in placeholders;
      ReplaceAll(ApplyPlaceholders(text, init), Token(last.0), last.1)
  }

  /**
   * `t(key, placeholders)` with the current language as the parameter
   * `lang`; the placeholder object is the list of its entries in key order.
   */
  method Translate(lang: string, key: string, placeholders: seq<(string, string)>) returns (text: string)
    ensures text == ApplyPlaceholders(Lookup(lang, key), placeholders)
  {
    text := Lookup(lang, key);
    for i := 0 to |placeholders|
      invariant text == ApplyPlaceholders(Lookup(lang, key), placeholders[..i])
    {
      assert placeholders[..i + 1][..i] == placeholders[..i];
      text := ReplaceAll(text, Token(placeholders[i].0), placeholders[i].1);
    }
    assert placeholders[..|placeholders|] == placeholders;
  }

  /**
   * One placeholder: the text is cut at every occurrence of its token and the
   * pieces, none of which holds the token, are joined with the value.
   */
  lemma SinglePlaceholder(text: string, name: string, value: string)
    ensures ApplyPlaceholders(text, [(name, value)]) == Join(Split(text, Token(name)), value)
    ensures forall p :: p in Split(text, Token(name)) ==> !Contains(p, Token(name))
    ensures Join(Split(text, Token(name)), Token(name)) == text
  {
    assert [(name, value)][..0] == [];
    ReplaceAllIsSplitJoin(text, Token(name), value);
    SplitPiecesLack(text, Token(name));
    SplitJoin(text, Token(name));
  }

  lemma EnglishInstallLacksTemplateKeys()
    ensures EnglishInstall("agentsSkillsTitle").None? && EnglishInstall("agentsSkillsUsageGuide").None?
  {
  }

  lemma EnglishErrorsLacksTemplateKeys()
    ensures EnglishErrors("agentsSkillsTitle").None? && EnglishErrors("agentsSkillsUsageGuide").None?
  {
  }

  lemma EnglishCliLacksTemplateKeys()
    ensures EnglishCli("agentsSkillsTitle").None? && EnglishCli("agentsSkillsUsageGuide").None?
  {
  }

  lemma EnglishSyncLacksTemplateKeys()
    ensures EnglishSync("agentsSkillsTitle").None? && EnglishSync("agentsSkillsUsageGuide").None?
  {
  }

  lemma EnglishOtherLacksTemplateKeys()
    ensures EnglishOther("agentsSkillsTitle").None? && EnglishOther("agentsSkillsUsageGuide").None?
  {
  }

  lemma ChineseInstallLacksTemplateKeys()
    ensures ChineseInstall("agentsSkillsTitle").None? && ChineseInstall("agentsSkillsUsageGuide").None?
  {
  }

  lemma ChineseErrorsLacksTemplateKeys()
    ensures ChineseErrors("agentsSkillsTitle").None? && ChineseErrors("agentsSkillsUsageGuide").None?
  {
  }

  lemma ChineseCliLacksTemplateKeys()
    ensures ChineseCli("agentsSkillsTitle").None? && ChineseCli("agentsSkillsUsageGuide").None?
  {
  }

  lemma ChineseSyncLacksTemplateKeys()
    ensures ChineseSync("agentsSkillsTitle").None? && ChineseSync("agentsSkillsUsageGuide").None?
  {
  }

  lemma ChineseOtherLacksTemplateKeys()
    ensures ChineseOther("agentsSkillsTitle").None? && ChineseOther("agentsSkillsUsageGuide").None?
  {
  }

  /** So `t` hands those keys back unchanged, in every language. */
  lemma TemplateKeysMissing(lang: string)
    ensures Lookup(lang, "agentsSkillsTitle") == "agentsSkillsTitle"
    ensures Lookup(lang, "agentsSkillsUsageGuide") == "agentsSkillsUsageGuide"
  {
    EnglishInstallLacksTemplateKeys();
    EnglishErrorsLacksTemplateKeys();
    EnglishCliLacksTemplateKeys();
    EnglishSyncLacksTemplateKeys();
    EnglishOtherLacksTemplateKeys();
    ChineseInstallLacksTemplateKeys();
    ChineseErrorsLacksTemplateKeys();
    ChineseCliLacksTemplateKeys();
    ChineseSyncLacksTemplateKeys();
    ChineseOtherLacksTemplateKeys();
  }

  lemma InstallingToNotEarlyInChinese()
    ensures ChineseInstall("installingTo").None? && ChineseErrors("installingTo").None?
  {
  }

  lemma InstallingToNotMidInChinese()
    ensures ChineseCli("installingTo").None? && ChineseSync("installingTo").None?
  {
  }

  /** The Chinese text of `installingTo` is a label followed by the `{path}` token. */
  lemma ChineseInstallingTo()
    ensures Lookup("zh", "installingTo") == "\U{5B89}\U{88C5}\U{5230}: " + Token("path")
  {
    InstallingToNotEarlyInChinese();
    InstallingToNotMidInChinese();
  }

  /** `t('installingTo', { path })` in Chinese puts the path after the translated label. */
  lemma InstallingToExample(path: string)
    ensures ApplyPlaceholders(Lookup("zh", "installingTo"), [("path", path)]) == "\U{5B89}\U{88C5}\U{5230}: " + path
  {
    var prefix := "\U{5B89}\U{88C5}\U{5230}: ";
    var token := Token("path");
    ChineseInstallingTo();
    assert [("path", path)][..0] == [];
    LacksByChar(prefix, token, '{');
    NoStartInPrefix(prefix, token, token);
    ReplaceAllAtEnd(prefix, token, path);
  }
}
