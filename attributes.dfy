/**
 * Attribute definitions (catalog/models.py, AttributeDefinition): a typed,
 * sluggable schema field grouped under an attribute group. The interesting
 * behaviour is `save`: a blank slug is derived from the group and attribute
 * names and made unique against the slugs of every other definition by
 * probing `base`, `base-1`, `base-2`, ... until a free one is found.
 *
 * The other definitions' slugs are a `set<string>` given to `Save` (the
 * table minus this row, which is what `exclude(pk=self.pk)` leaves), and
 * Django's `slugify` is a function parameter: its Unicode normalisation and
 * regular expressions are not modelled.
 */
module Attributes {
  import opened Wrappers
  import Text

  /** The `value_type` choices. Any other stored string is read like `TextType`. */
  datatype ValueType = TextType | NumberType | BooleanType

  /** The `k`-th slug tried for `base`: `base` itself, then `base-1`, `base-2`, ... */
  function Candidate(base: string, k: nat): string {
    if k == 0 then base else base + "-" + Text.NatToString(k)
  }

  /** Different probe numbers give different slugs. */
  lemma CandidateInjective(base: string, j: nat, k: nat)
    requires Candidate(base, j) == Candidate(base, k)
    ensures j == k
  {
    if j != 0 && k != 0 {
      var cj, ck := Candidate(base, j), Candidate(base, k);
      assert cj[|base| + 1..] == Text.NatToString(j);
      assert ck[|base| + 1..] == Text.NatToString(k);
      Text.NatToStringInjective(j, k);
    }
  }

  /** The slugs tried before the `n`-th one. */
  ghost function Probed(base: string, n: nat): set<string> {
    set j | 0 <= j < n :: Candidate(base, j)
  }

  lemma {:induction false} ProbedSize(base: string, n: nat)
    ensures |Probed(base, n)| == n
  {
    if n > 0 {
      ProbedSize(base, n - 1);
      ProbedStep(base, n - 1);
      ProbedFresh(base, n - 1);
    }
  }

  lemma ProbedStep(base: string, n: nat)
    ensures Probed(base, n + 1) == Probed(base, n) + {Candidate(base, n)}
  {
  }

  /** The `n`-th candidate is none of the ones before it. */
  lemma ProbedFresh(base: string, n: nat)
    ensures Candidate(base, n) !in Probed(base, n)
  {
    if Candidate(base, n) in Probed(base, n) {
      var j :| 0 <= j < n && Candidate(base, j) == Candidate(base, n);
      CandidateInjective(base, j, n);
    }
  }

  lemma {:induction false} SubsetSize<T>(a: set<T>, b: set<T>)
    requires a <= b
    ensures |a| <= |b|
  {
    if a != {} {
      var x :| x in a;
      SubsetSize(a - {x}, b - {x});
    }
  }

  /**
   * If the first `n` candidates are all taken, then `n` is at most the number
   * of taken slugs: the probing cannot go on past `|taken| + 1` candidates.
   */
  lemma ProbesBounded(base: string, taken: set<string>, n: nat)
    requires forall j :: 0 <= j < n ==> Candidate(base, j) in taken
    ensures n <= |taken|
  {
    ProbedSize(base, n);
    SubsetSize(Probed(base, n), taken);
  }

  /**
   * The first candidate from the `k`-th on that is not taken, given that all
   * before the `k`-th are taken.
   */
  function FirstFreeFrom(base: string, taken: set<string>, k: nat): (slug: string)
    requires forall j :: 0 <= j < k ==> Candidate(base, j) in taken
    ensures slug !in taken
    ensures exists n :: k <= n <= |taken| && slug == Candidate(base, n)
                        && forall j :: 0 <= j < n ==> Candidate(base, j) in taken
    decreases |taken| - k
  {
    ProbesBounded(base, taken, k);
    if Candidate(base, k) !in taken then
      Candidate(base, k)
    else
      ProbesBounded(base, taken, k + 1);
      FirstFreeFrom(base, taken, k + 1)
  }

  /**
   * The slug the probing loop settles on: the first of `base`, `base-1`,
   * `base-2`, ... that no other definition uses.
   */
  function FirstFree(base: string, taken: set<string>): (slug: string)
    ensures slug !in taken
    ensures exists n :: 0 <= n <= |taken| && slug == Candidate(base, n)
                        && forall j :: 0 <= j < n ==> Candidate(base, j) in taken
  {
    FirstFreeFrom(base, taken, 0)
  }

  /** Any candidate that is free while all earlier ones are taken is the one `FirstFree` picks. */
  lemma {:induction false} FirstFreeUnique(base: string, taken: set<string>, k: nat, n: nat)
    requires k <= n
    requires forall j :: 0 <= j < n ==> Candidate(base, j) in taken
    requires Candidate(base, n) !in taken
    ensures FirstFreeFrom(base, taken, k) == Candidate(base, n)
    decreases n - k
  {
    if k < n {
      FirstFreeUnique(base, taken, k + 1, n);
    }
  }

  /** With `nutrition-fat` and `nutrition-fat-1` taken, the next definition gets `nutrition-fat-2`. */
  lemma NutritionFatExample()
    ensures FirstFree("nutrition-fat", {"nutrition-fat", "nutrition-fat-1"}) == "nutrition-fat-2"
  {
    var taken := {"nutrition-fat", "nutrition-fat-1"};
    assert Candidate("nutrition-fat", 1) == "nutrition-fat-1";
    assert Candidate("nutrition-fat", 2) == "nutrition-fat-2";
    assert "nutrition-fat-2" !in taken;
    FirstFreeUnique("nutrition-fat", taken, 0, 2);
  }

  /** One row of the attribute-definition table, as the object `save` works on. */
  class AttributeDefinition {
    var groupName: string
    var name: string
    /** The empty string stands for both `None` and `""`, which `not self.slug` treats alike. */
    var slug: string
    var unit: Option<string>
    var valueType: ValueType

    constructor (groupName: string, name: string, slug: string, unit: Option<string>, valueType: ValueType)
      ensures this.groupName == groupName && this.name == name && this.slug == slug
      ensures this.unit == unit && this.valueType == valueType
    {
      this.groupName := groupName;
      this.name := name;
      this.slug := slug;
      this.unit := unit;
      this.valueType := valueType;
    }

    /** The slug derived from the names before any suffix is added. */
    function BaseSlug(slugify: string -> string): string
      reads this
    {
      slugify(groupName + "-" + name)
    }

    /**
     * `save` (models.py:82-91) minus the write itself. An explicit slug is
     * kept as it is; a blank one becomes the first free candidate, which
     * differs from every other definition's slug.
     */
    method Save(others: set<string>, slugify: string -> string)
      modifies this`slug
      ensures old(slug) != "" ==> slug == old(slug)
      ensures old(slug) == "" ==> slug == FirstFree(BaseSlug(slugify), others)
      ensures old(slug) == "" ==> slug !in others
    {
      if slug == "" {
        slug := slugify(groupName + "-" + name);
        var original := slug;
        var counter: nat := 1;
        while slug in others
          invariant counter >= 1
          invariant slug == Candidate(original, counter - 1)
          invariant forall j :: 0 <= j < counter - 1 ==> Candidate(original, j) in others
          invariant counter - 1 <= |others|
          decreases |others| - (counter - 1)
        {
          ProbesBounded(original, others, counter);
          slug := original + "-" + Text.NatToString(counter);
          counter := counter + 1;
        }
        FirstFreeUnique(original, others, 0, counter - 1);
      }
    }
  }
}
