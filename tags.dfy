/**
 * Tag taxonomies: the configured tag structure (the schema), the tags of one
 * image, and the project-wide training tags.
 */
module Tags {
  import opened Wrappers

  type Category = string
  type Tag = string

  /** The JSON key under which a structured tag file keeps the extra prompt. */
  const ExtraTextKey: string := "extra_text"

  /**
   * The configured tag structure: category names in key order, and the
   * default tag list of each category.
   */
  datatype Structure = Structure(names: seq<Category>, defaults: map<Category, seq<Tag>>)

  /** A JSON object's keys are distinct, and each key has a value. */
  ghost predicate WellFormed(s: Structure)
  {
    && (forall i, j :: 0 <= i < j < |s.names| ==> s.names[i] != s.names[j])
    && s.defaults.Keys == set c | c in s.names
  }

  type Schema = s: Structure | WellFormed(s) witness Structure([], map[])

  /** One image's tags. `None` is a category whose value is `undefined`. */
  type ImageTags = map<Category, Option<seq<Tag>>>

  /** The project-wide training tags: each category's tag list. */
  type TrainingTags = map<Category, seq<Tag>>

  /** `imageTags[category]` in JavaScript: `undefined` for a missing key. */
  function Lookup(tags: ImageTags, c: Category): Option<seq<Tag>>
  {
    if c in tags then tags[c] else None
  }

  /** A fresh copy of the configured tag structure, as image tags. */
  function DefaultImageTags(schema: Schema): ImageTags
  {
    map c | c in schema.defaults :: Some(schema.defaults[c])
  }

  /** The sum of the lengths of all tag lists, over the map's keys in any order. */
  ghost function SumLengths(m: TrainingTags): nat
    decreases m.Keys
  {
    if m == map[] then 0
    else
      var c :| c in m;
      assert (m - {c}).Keys < m.Keys;
      |m[c]| + SumLengths(m - {c})
  }

  /** Any key may be taken first: the sum does not depend on key order. */
  lemma {:induction false} SumLengthsRemove(m: TrainingTags, c: Category)
    requires c in m
    ensures SumLengths(m) == |m[c]| + SumLengths(m - {c})
    decreases m.Keys
  {
    var d :| d in m && SumLengths(m) == |m[d]| + SumLengths(m - {d});
    if d != c {
      assert (m - {d}).Keys < m.Keys;
      assert (m - {c}).Keys < m.Keys;
      SumLengthsRemove(m - {d}, c);
      SumLengthsRemove(m - {c}, d);
      assert m - {d} - {c} == m - {c} - {d};
    }
  }

  /** An all-empty taxonomy has no tags. */
  lemma {:induction false} SumLengthsAllEmpty(m: TrainingTags)
    requires forall c :: c in m ==> m[c] == []
    ensures SumLengths(m) == 0
    decreases m.Keys
  {
    if m != map[] {
      var c :| c in m;
      SumLengthsRemove(m, c);
      assert (m - {c}).Keys < m.Keys;
      SumLengthsAllEmpty(m - {c});
    }
  }

  /** Adding one tag to one existing category adds exactly one to the count. */
  lemma SumLengthsAddTag(m: TrainingTags, c: Category, t: Tag)
    requires c in m
    ensures SumLengths(m[c := m[c] + [t]]) == SumLengths(m) + 1
  {
    var m' := m[c := m[c] + [t]];
    SumLengthsRemove(m, c);
    SumLengthsRemove(m', c);
    assert m' - {c} == m - {c};
  }
}
