/**
 * The subject list: the default subjects, and adding a subject whose trimmed
 * name is not empty and not already present up to letter case.
 */
module Subjects {
  import opened Wrappers

  /** The subjects offered when none are saved, or when the saved list cannot be read. */
  const DefaultSubjects: seq<string> := ["Misc", "Maths", "Science", "English"]

  /** What storage holds under `subjects`; an empty saved string counts as nothing saved. */
  datatype SavedSubjects = NothingSaved | Unreadable | Saved(list: seq<string>)

  /**
   * `loadSubjects`: the saved list when one can be read, otherwise the
   * defaults, which have no case-insensitive duplicates.
   */
  function LoadSubjects(saved: SavedSubjects): (r: seq<string>)
    ensures saved.Saved? ==> r == saved.list
    ensures !saved.Saved? ==> r == DefaultSubjects && NoCaseDuplicates(r)
  {
    DefaultsDistinct();
    match saved
    case Saved(list) => list
    case _ => DefaultSubjects
  }

  /** The characters `String.prototype.trim` removes: white space and line terminators. */
  predicate IsWhiteSpace(c: char) {
    var n := c as int;
    n == 0x09 || n == 0x0A || n == 0x0B || n == 0x0C || n == 0x0D || n == 0x20 || n == 0xA0
    || n == 0x1680 || (0x2000 <= n <= 0x200A) || n == 0x2028 || n == 0x2029 || n == 0x202F
    || n == 0x205F || n == 0x3000 || n == 0xFEFF
  }

  /** The length of the white space that `s` starts with. */
  function LeadingSpace(s: string): (n: nat)
    ensures n <= |s|
    ensures forall i :: 0 <= i < n ==> IsWhiteSpace(s[i])
    ensures n == |s| || !IsWhiteSpace(s[n])
  {
    if s != [] && IsWhiteSpace(s[0]) then 1 + LeadingSpace(s[1..]) else 0
  }

  /** `s` without its trailing white space: a prefix of `s` that ends with no white space. */
  function TrimEnd(s: string): (r: string)
    ensures |r| <= |s| && r == s[..|r|]
    ensures forall i :: |r| <= i < |s| ==> IsWhiteSpace(s[i])
    ensures r == [] || !IsWhiteSpace(r[|r| - 1])
  {
    if s != [] && IsWhiteSpace(s[|s| - 1]) then TrimEnd(s[..|s| - 1]) else s
  }

  /**
   * `String.prototype.trim`: `s` with exactly its leading and trailing white
   * space removed. The result is the slice of `s` that starts after the
   * leading white space (`LeadingSpace(s)`) and is followed only by white
   * space; it has no white space at either end, and is empty exactly when
   * `s` is all white space.
   */
  function Trim(s: string): (r: string)
    ensures LeadingSpace(s) + |r| <= |s| && r == s[LeadingSpace(s)..LeadingSpace(s) + |r|]
    ensures forall i :: LeadingSpace(s) + |r| <= i < |s| ==> IsWhiteSpace(s[i])
    ensures r == [] || (!IsWhiteSpace(r[0]) && !IsWhiteSpace(r[|r| - 1]))
    ensures r == [] <==> forall i :: 0 <= i < |s| ==> IsWhiteSpace(s[i])
  {
    var a := LeadingSpace(s);
    var t := s[a..];
    var r := TrimEnd(t);
    assert forall i :: a + |r| <= i < |s| ==> IsWhiteSpace(s[i]) by {
      forall i | a + |r| <= i < |s| ensures IsWhiteSpace(s[i]) {
        assert s[i] == t[i - a];
      }
    }
    r
  }

  /** A name with no white space at either end is its own trimmed form. */
  lemma TrimUnpadded(s: string)
    requires s == [] || (!IsWhiteSpace(s[0]) && !IsWhiteSpace(s[|s| - 1]))
    ensures Trim(s) == s
  {
  }

  /** Trimming twice is trimming once. */
  lemma TrimIdempotent(s: string)
    ensures Trim(Trim(s)) == Trim(s)
  {
    TrimUnpadded(Trim(s));
  }

  /** ASCII upper-case letters to lower case; every other character unchanged. */
  function LowerChar(c: char): (r: char)
    ensures !('A' <= r <= 'Z')
    ensures 'A' <= c <= 'Z' ==> r as int == c as int + 32
    ensures !('A' <= c <= 'Z') ==> r == c
  {
    if 'A' <= c <= 'Z' then (c as int + 32) as char else c
  }

  /**
   * `String.prototype.toLowerCase`, on ASCII letters: the same length, no
   * upper-case ASCII letter left, each one replaced by its lower-case letter
   * and every other character kept.
   */
  function Lower(s: string): (r: string)
    ensures |r| == |s|
    ensures forall i :: 0 <= i < |r| ==> !('A' <= r[i] <= 'Z')
    ensures forall i :: 0 <= i < |s| && 'A' <= s[i] <= 'Z' ==> r[i] as int == s[i] as int + 32
    ensures forall i :: 0 <= i < |s| && !('A' <= s[i] <= 'Z') ==> r[i] == s[i]
  {
    seq(|s|, i requires 0 <= i < |s| => LowerChar(s[i]))
  }

  /** `subjects.some(s => s.toLowerCase() === name.toLowerCase())`. */
  function ContainsIgnoringCase(subjects: seq<string>, name: string): (b: bool)
    ensures b <==> exists i :: 0 <= i < |subjects| && Lower(subjects[i]) == Lower(name)
  {
    if subjects == [] then false
    else Lower(subjects[0]) == Lower(name) || ContainsIgnoringCase(subjects[1..], name)
  }

  /** No two subjects are equal up to letter case. */
  ghost predicate NoCaseDuplicates(subjects: seq<string>) {
    forall i, j :: 0 <= i < j < |subjects| ==> Lower(subjects[i]) != Lower(subjects[j])
  }

  /** The default subjects are pairwise different up to letter case. */
  lemma DefaultsDistinct()
    ensures NoCaseDuplicates(DefaultSubjects)
  {
    var l := seq(4, i requires 0 <= i < 4 => Lower(DefaultSubjects[i]));
    assert l[0][1] == 'i' && l[1][1] == 'a' && l[2][1] == 'c' && l[3][1] == 'n';
    assert l[1][0] == 'm' && l[2][0] == 's' && l[3][0] == 'e';
  }

  /** Appending a name with no case-insensitive match keeps the list free of duplicates. */
  lemma AppendKeepsDistinct(subjects: seq<string>, name: string)
    requires !ContainsIgnoringCase(subjects, name)
    ensures NoCaseDuplicates(subjects) ==> NoCaseDuplicates(subjects + [name])
  {
  }

  /** The subject list, as the page holds it. */
  class SubjectList {
    var subjects: seq<string>

    /** Start-up: the saved list if it can be read, the defaults otherwise. */
    constructor (saved: SavedSubjects)
      ensures subjects == LoadSubjects(saved)
      ensures saved.Saved? ==> subjects == saved.list
      ensures !saved.Saved? ==> subjects == DefaultSubjects && NoCaseDuplicates(subjects)
    {
      subjects := LoadSubjects(saved);
    }

    /**
     * `addSubjectPrompt`, given the answer to the prompt (`None` when it was
     * cancelled): append the trimmed name unless it is empty or already
     * present up to letter case.
     */
    method AddSubject(name: Option<string>)
      modifies this
      ensures var trimmed := Trim(name.GetOr(""));
        if trimmed != [] && !ContainsIgnoringCase(old(subjects), trimmed)
        then subjects == old(subjects) + [trimmed]
        else subjects == old(subjects)
      ensures old(NoCaseDuplicates(subjects)) ==> NoCaseDuplicates(subjects)
    {
      if name.None? || name.value == "" {
        return;
      }
      var trimmed := Trim(name.value);
      if trimmed == "" {
        return;
      }
      var present := ContainsIgnoringCase(subjects, trimmed);
      if present {
        return;
      }
      AppendKeepsDistinct(subjects, trimmed);
      subjects := subjects + [trimmed];
    }
  }
}
