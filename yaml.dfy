/**
 * Front-matter helpers (lib/utils/yaml.js). Neither is a YAML parser:
 * `ExtractYamlField` is the first match of the multiline regular expression
 * `^<field>:\s*(.+)$`, trimmed, and `HasValidFrontmatter` is a prefix test on
 * the trimmed text. The field name is matched as literal text.
 */
module Yaml {
  import opened Wrappers
  import opened Text

  /** The longest prefix of `t` without a line terminator: what a greedy `.+` or `.*` takes. */
  function LineRun(t: string): (r: string)
    ensures |r| <= |t| && r == t[..|r|]
    ensures forall i :: 0 <= i < |r| ==> !IsLineTerminator(r[i])
    ensures |r| < |t| ==> IsLineTerminator(t[|r|])
    decreases |t|
  {
    if |t| == 0 || IsLineTerminator(t[0]) then "" else [t[0]] + LineRun(t[1..])
  }

  /** Index of the last character of `w` that `.` can match, if any. */
  function LastNonTerminator(w: string): (r: Option<nat>)
    ensures r.Some? ==> r.value < |w| && !IsLineTerminator(w[r.value])
    ensures r.Some? ==> forall i :: r.value < i < |w| ==> IsLineTerminator(w[i])
    ensures r.None? ==> forall i :: 0 <= i < |w| ==> IsLineTerminator(w[i])
    decreases |w|
  {
    if |w| == 0 then None
    else if !IsLineTerminator(w[|w| - 1]) then Some(|w| - 1)
    else LastNonTerminator(w[..|w| - 1])
  }

  /**
   * `\s*(.+)$` anchored at the start of `t`, with the engine's backtracking.
   * The greedy `\s*` first takes every whitespace character (line breaks
   * included); if a non-whitespace character follows, `.+` takes the rest of
   * that line. If the whitespace runs to the end of the text, `\s*` gives
   * characters back until `.+` can take one that is not a line terminator,
   * which leaves a one-character capture; with none, there is no match.
   */
  function ValueCapture(t: string): (r: Option<string>)
    ensures r.Some? ==> |r.value| > 0
    ensures r.Some? ==> forall c :: c in r.value ==> !IsLineTerminator(c)
  {
    var rest := TrimStart(t);
    if |rest| > 0 then Some(LineRun(rest))
    else match LastNonTerminator(t)
      case None => None
      case Some(j) => Some([t[j]])
  }

  /** `^field:\s*(.+)$` tried at the start of `s`, a position where `^` holds. */
  function FieldAt(s: string, field: string): (r: Option<string>)
    ensures r.Some? ==> StartsWith(s, field + ":")
  {
    if StartsWith(s, field + ":") then ValueCapture(s[|field| + 1..]) else None
  }

  /** Where the multiline `^` holds in `s`: at index 0 and right after every line terminator. */
  predicate LineStart(s: string, p: nat) {
    p <= |s| && (p == 0 || IsLineTerminator(s[p - 1]))
  }

  /** `t` holds a character that `.` can match. */
  predicate HasValueChar(t: string)
    decreases |t|
  {
    |t| > 0 && (!IsLineTerminator(t[0]) || HasValueChar(t[1..]))
  }

  lemma {:induction false} HasValueCharAt(t: string, i: nat)
    requires i < |t| && !IsLineTerminator(t[i])
    ensures HasValueChar(t)
    decreases i
  {
    if i > 0 && IsLineTerminator(t[0]) {
      HasValueCharAt(t[1..], i - 1);
    }
  }

  lemma {:induction false} NoValueChar(t: string)
    requires forall i :: 0 <= i < |t| ==> IsLineTerminator(t[i])
    ensures !HasValueChar(t)
    decreases |t|
  {
    if |t| > 0 {
      NoValueChar(t[1..]);
    }
  }

  /** `\s*(.+)$` matches exactly when the text holds a character other than a line terminator. */
  lemma ValueCaptureIff(t: string)
    ensures ValueCapture(t).Some? <==> HasValueChar(t)
  {
    var rest := TrimStart(t);
    if |rest| > 0 {
      HasValueCharAt(t, |t| - |rest|);
    } else {
      match LastNonTerminator(t)
      case None => NoValueChar(t);
      case Some(j) => HasValueCharAt(t, j);
    }
  }

  /** The field pattern matches at the start of `s`: `field:` followed by text that `\s*(.+)$` accepts. */
  predicate FieldMatches(s: string, field: string) {
    StartsWith(s, field + ":") && HasValueChar(s[|field| + 1..])
  }

  lemma FieldAtIff(s: string, field: string)
    ensures FieldAt(s, field).Some? <==> FieldMatches(s, field)
  {
    if StartsWith(s, field + ":") {
      ValueCaptureIff(s[|field| + 1..]);
    }
  }

  /**
   * Where the first match at or after index `from` of `^field:\s*(.+)$`
   * with the `m` flag starts: the pattern is tried at every line start,
   * leftmost first.
   */
  function FieldScan(s: string, field: string, from: nat): (r: Option<nat>)
    ensures r.Some? ==> from <= r.value <= |s| && LineStart(s, r.value) && FieldMatches(s[r.value..], field)
    decreases |s| - from
  {
    if LineStart(s, from) && FieldMatches(s[from..], field) then Some(from)
    else if from >= |s| then None
    else FieldScan(s, field, from + 1)
  }

  /**
   * The scan is leftmost: whenever the pattern matches at a line start `p`
   * at or after `from`, the scan finds a match, and not later than `p`.
   */
  lemma {:induction false} FieldScanLeftmost(s: string, field: string, from: nat, p: nat)
    requires from <= p <= |s| && LineStart(s, p) && FieldMatches(s[p..], field)
    ensures FieldScan(s, field, from).Some? && FieldScan(s, field, from).value <= p
    decreases p - from
  {
    if !(LineStart(s, from) && FieldMatches(s[from..], field)) {
      FieldScanLeftmost(s, field, from + 1, p);
    }
  }

  /**
   * `extractYamlField(content, field)`: the trimmed capture of the first line
   * that starts with `field:`, or the empty string when there is none.
   */
  function ExtractYamlField(content: string, field: string): (r: string)
    ensures r == [] || (!IsSpace(r[0]) && !IsSpace(r[|r| - 1]))
    ensures forall c :: c in r ==> !IsLineTerminator(c)
  {
    match FieldScan(content, field, 0)
    case None => ""
    case Some(at) =>
      FieldAtIff(content[at..], field);
      Trim(FieldAt(content[at..], field).value)
  }

  /**
   * The value is taken from the first line start where the pattern matches:
   * with a match at line start `p` and none at an earlier line start, the
   * result is the trimmed capture at `p`.
   */
  lemma FirstMatchingLineDecides(content: string, field: string, p: nat)
    requires p <= |content| && LineStart(content, p) && FieldMatches(content[p..], field)
    requires forall q :: 0 <= q < p && LineStart(content, q) ==> !FieldMatches(content[q..], field)
    ensures FieldAt(content[p..], field).Some?
    ensures ExtractYamlField(content, field) == Trim(FieldAt(content[p..], field).value)
  {
    FieldAtIff(content[p..], field);
    FirstMatchIsScanned(content, field, p);
  }

  /** The scan from the start stops at the first line start where the pattern matches. */
  lemma FirstMatchIsScanned(content: string, field: string, p: nat)
    requires p <= |content| && LineStart(content, p) && FieldMatches(content[p..], field)
    requires forall q :: 0 <= q < p && LineStart(content, q) ==> !FieldMatches(content[q..], field)
    ensures FieldScan(content, field, 0) == Some(p)
  {
    FieldScanLeftmost(content, field, 0, p);
    var at := FieldScan(content, field, 0).value;
    assert !(at < p);
  }

  /**
   * With the pattern matching at no line start, the lookup yields the empty
   * string; this takes in lines that begin with `field:` but have nothing
   * after it that `.+` can take, such as a last line `description:`.
   */
  lemma NoFieldLineGivesEmpty(content: string, field: string)
    requires forall p :: 0 <= p <= |content| && LineStart(content, p) ==> !FieldMatches(content[p..], field)
    ensures ExtractYamlField(content, field) == ""
  {
  }

  /** A `field:` that does not begin a line is never matched: only line starts are tried. */
  lemma MatchBeginsLine(content: string, field: string)
    requires FieldScan(content, field, 0).Some?
    ensures var at := FieldScan(content, field, 0).value;
      (at == 0 || IsLineTerminator(content[at - 1])) && StartsWith(content[at..], field + ":")
  {
  }

  /** `TrimStart` skips a whitespace prefix and stops at the first other character. */
  lemma {:induction false} TrimStartSkips(w: string, v: string)
    requires forall i :: 0 <= i < |w| ==> IsSpace(w[i])
    requires |v| > 0 && !IsSpace(v[0])
    ensures TrimStart(w + v) == v
    decreases |w|
  {
    if |w| > 0 {
      assert (w + v)[1..] == w[1..] + v;
      TrimStartSkips(w[1..], v);
    } else {
      assert w + v == v;
    }
  }

  /**
   * `\s*` crosses line breaks: after `field:` and any run of whitespace,
   * blank lines included, the capture is the rest of the first line that
   * starts with a non-whitespace character.
   */
  lemma ValueCrossesLines(w: string, v: string)
    requires forall i :: 0 <= i < |w| ==> IsSpace(w[i])
    requires |v| > 0 && !IsSpace(v[0])
    ensures ValueCapture(w + v) == Some(LineRun(v))
  {
    TrimStartSkips(w, v);
  }

  /** After `field:` the pattern goes on with `\s*(.+)$` on the rest of the text. */
  lemma FieldAtKey(field: string, s: string, t: string)
    requires s == field + ":" + t
    ensures FieldAt(s, field) == ValueCapture(t)
  {
    var key := field + ":";
    assert s[..|key|] == key;
    assert s[|key|..] == t;
  }

  /** A line break, then a line that starts with a non-whitespace character: the capture is that line. */
  lemma ValueAfterBreak(v: string)
    requires |v| > 0 && !IsSpace(v[0])
    ensures ValueCapture("\n" + v) == Some(LineRun(v))
  {
    ValueCrossesLines("\n", v);
  }

  lemma BreakRegroup(field: string, v: string)
    ensures field + ":\n" + v == field + ":" + ("\n" + v)
  {
  }

  /** An empty `field:` line followed by a non-blank line yields the text of that next line. */
  lemma EmptyFieldTakesNextLine(field: string, v: string)
    requires |v| > 0 && !IsSpace(v[0])
    ensures FieldAt(field + ":\n" + v, field) == Some(LineRun(v))
  {
    BreakRegroup(field, v);
    FieldAtKey(field, field + ":\n" + v, "\n" + v);
    ValueAfterBreak(v);
  }

  /**
   * `hasValidFrontmatter(content)`: the trimmed content starts with `---`.
   * The test only looks at the start: it holds exactly when the text after
   * the leading whitespace begins with `---`, whatever trails the content.
   */
  function HasValidFrontmatter(content: string): (r: bool)
    ensures r <==> StartsWith(TrimStart(content), "---")
  {
    LeadingDashes(content);
    StartsWith(Trim(content), "---")
  }

  lemma LeadingDashes(content: string)
    ensures StartsWith(Trim(content), "---") <==> StartsWith(TrimStart(content), "---")
  {
    var t := TrimStart(content);
    DashesKept(t, TrimEnd(t));
  }

  /** Dropping trailing whitespace from `t` keeps or loses a leading `---` with it. */
  lemma DashesKept(t: string, e: string)
    requires |e| <= |t| && e == t[..|e|]
    requires forall k :: |e| <= k < |t| ==> IsSpace(t[k])
    ensures StartsWith(e, "---") <==> StartsWith(t, "---")
  {
    if StartsWith(t, "---") {
      assert !IsSpace(t[2]);
      assert |e| >= 3;
      assert e[..3] == t[..3];
    }
    if StartsWith(e, "---") {
      assert t[..3] == e[..3];
    }
  }
}
