/**
 * Skill discovery (lib/utils/skills.js, exported as `findAllSkills`). The
 * directory listing of `.claude/skills` is passed in: whether the directory
 * exists, and for each entry its name, whether it is a directory and the text
 * of its `SKILL.md` when that file exists. The loop pushes one record per
 * qualifying entry; the records are then sorted by name in place.
 */
module Skills {
  import opened Wrappers
  import opened Yaml

  /** A skill record: the directory name and the description from its SKILL.md. */
  datatype Skill = Skill(name: string, description: string)

  /** One entry of the skills directory listing; `skillFile` is the text of `<name>/SKILL.md` when it exists. */
  datatype Entry = Entry(name: string, isDirectory: bool, skillFile: Option<string>)

  /** An entry produces a record exactly when it is a directory holding a SKILL.md. */
  predicate Qualifies(e: Entry) {
    e.isDirectory && e.skillFile.Some?
  }

  /**
   * The description read from a SKILL.md: skills.js inlines the pattern
   * `^description:\s*(.+)$` with the `m` flag, which is the pattern
   * `extractYamlField` builds for the field `description`.
   */
  function DescriptionOf(text: string): string {
    ExtractYamlField(text, "description")
  }

  function ToSkill(e: Entry): Skill
    requires Qualifies(e)
  {
    Skill(e.name, DescriptionOf(e.skillFile.value))
  }

  /** The positions of the entries that produce a record. */
  function QualifyingIndices(entries: seq<Entry>): set<nat> {
    set k: nat | k < |entries| && Qualifies(entries[k])
  }

  /** The records the loop has pushed after visiting `entries`, in listing order: one per qualifying entry. */
  function Collect(entries: seq<Entry>): (r: seq<Skill>)
    ensures |r| == |QualifyingIndices(entries)|
    decreases |entries|
  {
    if |entries| == 0 then []
    else
      var n := |entries| - 1;
      var init := entries[..n];
      var last := entries[n];
      assert QualifyingIndices(entries) == QualifyingIndices(init) + (if Qualifies(last) then {n} else {});
      Collect(init) + (if Qualifies(last) then [ToSkill(last)] else [])
  }

  /** Every record comes from a qualifying entry... */
  lemma {:induction false} CollectSound(entries: seq<Entry>, r: Skill)
    requires r in Collect(entries)
    ensures exists k :: 0 <= k < |entries| && Qualifies(entries[k]) && r == ToSkill(entries[k])
    decreases |entries|
  {
    var n := |entries| - 1;
    var init := entries[..n];
    if r in Collect(init) {
      CollectSound(init, r);
      var k :| 0 <= k < |init| && Qualifies(init[k]) && r == ToSkill(init[k]);
      assert entries[k] == init[k];
    } else {
      assert Qualifies(entries[n]) && r == ToSkill(entries[n]);
    }
  }

  /** ...and every qualifying entry gives a record. */
  lemma {:induction false} CollectComplete(entries: seq<Entry>, k: nat)
    requires k < |entries| && Qualifies(entries[k])
    ensures ToSkill(entries[k]) in Collect(entries)
    decreases |entries|
  {
    var n := |entries| - 1;
    var init := entries[..n];
    var tail := if Qualifies(entries[n]) then [ToSkill(entries[n])] else [];
    assert Collect(entries) == Collect(init) + tail;
    if k < n {
      assert init[k] == entries[k];
      CollectComplete(init, k);
      assert ToSkill(entries[k]) in Collect(init);
    } else {
      assert ToSkill(entries[k]) in tail;
    }
  }

  /** The records are exactly those of the qualifying entries. */
  lemma CollectMembers(entries: seq<Entry>)
    ensures forall r :: r in Collect(entries) <==>
      exists k :: 0 <= k < |entries| && Qualifies(entries[k]) && r == ToSkill(entries[k])
  {
    forall r | r in Collect(entries)
      ensures exists k :: 0 <= k < |entries| && Qualifies(entries[k]) && r == ToSkill(entries[k])
    {
      CollectSound(entries, r);
    }
    forall k | 0 <= k < |entries| && Qualifies(entries[k])
      ensures ToSkill(entries[k]) in Collect(entries)
    {
      CollectComplete(entries, k);
    }
  }

  // ---------------------------------------------------------------------
  // Ordering by name
  // ---------------------------------------------------------------------

  /**
   * `a.name.localeCompare(b.name) <= 0`, taken as the ordinal lexicographic
   * order on code points.
   */
  predicate NameLe(x: string, y: string)
    decreases |x|
  {
    |x| == 0 || (|y| > 0 && (x[0] < y[0] || (x[0] == y[0] && NameLe(x[1..], y[1..]))))
  }

  lemma {:induction false} NameLeTotal(x: string, y: string)
    ensures NameLe(x, y) || NameLe(y, x)
    decreases |x|
  {
    if |x| > 0 && |y| > 0 && x[0] == y[0] {
      NameLeTotal(x[1..], y[1..]);
    }
  }

  lemma {:induction false} NameLeTransitive(x: string, y: string, z: string)
    requires NameLe(x, y) && NameLe(y, z)
    ensures NameLe(x, z)
    decreases |x|
  {
    if |x| > 0 && x[0] == y[0] && y[0] == z[0] {
      NameLeTransitive(x[1..], y[1..], z[1..]);
    }
  }

  lemma {:induction false} NameLeAntisymmetric(x: string, y: string)
    requires NameLe(x, y) && NameLe(y, x)
    ensures x == y
    decreases |x|
  {
    if |x| > 0 {
      NameLeAntisymmetric(x[1..], y[1..]);
      assert x == [x[0]] + x[1..] && y == [y[0]] + y[1..];
    }
  }

  /** Each record's name is at most the next one's. */
  predicate SortedByName(s: seq<Skill>) {
    forall i :: 0 < i < |s| ==> NameLe(s[i - 1].name, s[i].name)
  }

  /** Sorted neighbours give a sorted sequence: every earlier name is at most every later one. */
  lemma {:induction false} SortedPairwise(s: seq<Skill>, i: nat, j: nat)
    requires SortedByName(s) && i <= j < |s|
    ensures NameLe(s[i].name, s[j].name)
    decreases j - i
  {
    if i == j {
      NameLeTotal(s[i].name, s[i].name);
    } else {
      SortedPairwise(s, i, j - 1);
      NameLeTransitive(s[i].name, s[j - 1].name, s[j].name);
    }
  }

  /** Exchanges two records of the array. */
  method Swap(a: array<Skill>, i: nat, j: nat)
    requires i < a.Length && j < a.Length
    modifies a
    ensures a[..] == old(a[..])[i := old(a[j])][j := old(a[i])]
    ensures multiset(a[..]) == multiset(old(a[..]))
  {
    a[i], a[j] := a[j], a[i];
  }

  /** Moves `a[i]` left past every larger name, extending the sorted prefix by one. */
  method InsertAt(a: array<Skill>, i: nat)
    requires i < a.Length && SortedByName(a[..i])
    modifies a
    ensures SortedByName(a[..i + 1])
    ensures multiset(a[..]) == multiset(old(a[..]))
    ensures a[i + 1..] == old(a[i + 1..])
    ensures multiset(a[..i + 1]) == multiset(old(a[..i + 1]))
  {
    var j := i;
    assert a[..i + 1][..i] == a[..i];
    while j > 0 && !NameLe(a[j - 1].name, a[j].name)
      invariant 0 <= j <= i
      invariant multiset(a[..]) == multiset(old(a[..]))
      invariant a[i + 1..] == old(a[i + 1..])
      invariant SortedExcept(a[..i + 1], j)
    {
      NameLeTotal(a[j - 1].name, a[j].name);
      ghost var before := a[..];
      Swap(a, j - 1, j);
      SwapStep(before, a[..], i, j);
      j := j - 1;
    }
    SortedExceptDone(a[..i + 1], j);
    PrefixMultiset(old(a[..]), a[..], i + 1);
  }

  /** Neighbours are in order everywhere except at `j`, and the records either side of `j` are in order. */
  ghost predicate SortedExcept(s: seq<Skill>, j: nat) {
    && (forall k :: 0 < k < |s| && k != j ==> NameLe(s[k - 1].name, s[k].name))
    && (0 < j < |s| - 1 ==> NameLe(s[j - 1].name, s[j + 1].name))
  }

  /** Swapping the out-of-order pair at `j` moves the one gap to `j - 1` and leaves the records after `i` alone. */
  lemma SwapStep(x: seq<Skill>, y: seq<Skill>, i: nat, j: nat)
    requires 0 < j <= i < |x| && SortedExcept(x[..i + 1], j) && NameLe(x[j].name, x[j - 1].name)
    requires y == x[j - 1 := x[j]][j := x[j - 1]]
    ensures SortedExcept(y[..i + 1], j - 1)
    ensures y[i + 1..] == x[i + 1..]
  {
    var xs, ys := x[..i + 1], y[..i + 1];
    assert forall k :: 0 < k <= i && k != j - 1 ==> NameLe(ys[k - 1].name, ys[k].name) by {
      forall k | 0 < k <= i && k != j - 1 ensures NameLe(ys[k - 1].name, ys[k].name) {
        if k == j + 1 {
          assert ys[k - 1] == xs[j - 1] && ys[k] == xs[j + 1];
        } else if k != j {
          assert ys[k - 1] == xs[k - 1] && ys[k] == xs[k];
        }
      }
    }
    if 0 < j - 1 {
      assert ys[j - 2] == xs[j - 2] && ys[j] == xs[j - 1];
      assert NameLe(xs[j - 2].name, xs[j - 1].name);
    }
  }

  /** With the gap closed, the whole sequence is sorted. */
  lemma SortedExceptDone(s: seq<Skill>, j: nat)
    requires j < |s| && SortedExcept(s, j) && (j == 0 || NameLe(s[j - 1].name, s[j].name))
    ensures SortedByName(s)
  {
  }

  /** Two sequences with equal multisets and equal suffixes from `n` have equal multisets of their prefixes up to `n`. */
  lemma PrefixMultiset(x: seq<Skill>, y: seq<Skill>, n: nat)
    requires n <= |x| == |y| && multiset(x) == multiset(y) && x[n..] == y[n..]
    ensures multiset(x[..n]) == multiset(y[..n])
  {
    assert x == x[..n] + x[n..] && y == y[..n] + y[n..];
    assert multiset(x) == multiset(x[..n]) + multiset(x[n..]);
    assert multiset(y) == multiset(y[..n]) + multiset(y[n..]);
    assert multiset(x[..n]) == multiset(x) - multiset(x[n..]);
    assert multiset(y[..n]) == multiset(y) - multiset(y[n..]);
  }

  /** `skills.sort((a, b) => a.name.localeCompare(b.name))`: an in-place sort by name (insertion sort). */
  method SortByName(a: array<Skill>)
    modifies a
    ensures SortedByName(a[..])
    ensures multiset(a[..]) == multiset(old(a[..]))
  {
    for i := 0 to a.Length
      invariant SortedByName(a[..i])
      invariant multiset(a[..]) == multiset(old(a[..]))
    {
      InsertAt(a, i);
    }
    assert a[..a.Length] == a[..];
  }

  /**
   * `findAllSkills()`: no records when the skills directory is missing;
   * otherwise one record per directory entry holding a SKILL.md, named after
   * the entry, with the description its SKILL.md yields, sorted by name.
   */
  method FindAllSkills(dirExists: bool, entries: seq<Entry>) returns (skills: seq<Skill>)
    ensures !dirExists ==> skills == []
    ensures dirExists ==> multiset(skills) == multiset(Collect(entries))
    ensures dirExists ==> |skills| == |QualifyingIndices(entries)|
    ensures dirExists ==> forall r :: r in skills <==>
      exists k :: 0 <= k < |entries| && Qualifies(entries[k]) && r == ToSkill(entries[k])
    ensures SortedByName(skills)
  {
    if !dirExists {
      return [];
    }
    var found: seq<Skill> := [];
    for i := 0 to |entries|
      invariant found == Collect(entries[..i])
    {
      var entry := entries[i];
      assert entries[..i + 1][..i] == entries[..i];
      if entry.isDirectory {
        if entry.skillFile.Some? {
          var content := entry.skillFile.value;
          found := found + [Skill(entry.name, ExtractYamlField(content, "description"))];
        }
      }
    }
    assert entries[..|entries|] == entries;
    var a := new Skill[|found|](k requires 0 <= k < |found| => found[k]);
    assert a[..] == found;
    SortByName(a);
    skills := a[..];
    CollectMembers(entries);
    assert |skills| == |multiset(skills)| == |multiset(found)| == |found|;
    assert forall r :: r in skills <==> r in multiset(skills);
    assert forall r :: r in found <==> r in multiset(found);
  }
}
