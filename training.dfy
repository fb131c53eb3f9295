/**
 * The project training-tag file: one fixed-name record per dataset
 * directory holding the project's tag taxonomy, and the count of its tags.
 */
module TrainingTagsStore {
  import opened Wrappers
  import opened Tags
  import opened Storage
  import opened Datasets

  const TrainingTagsFileName: string := "ct_training_tags.ctf"

  method SaveTrainingTagsToFile(dataset: Dataset, dir: Directory) returns (r: Outcome)
    modifies dir
    ensures (r, dir.files)
         == WriteTo(old(dir.files), dir.unwritable, TrainingTagsFileName, Record(dataset.trainingTags, None))
  {
    r := dir.Write(TrainingTagsFileName, Record(dataset.trainingTags, None));
  }

  /**
   * What `loadTrainingTagsFromFile` is meant to return for what reading the
   * file gives: the parsed record's lists, and on any failure to read or to
   * parse, a copy of the configured structure.
   */
  function LoadedTrainingTags(schema: Schema, file: Option<Content>): TrainingTags
  {
    match ReadRecord(file)
    case Resolved(fields, _) => fields
    case _ => schema.defaults
  }

  /**
   * `loadTrainingTagsFromFile` as written: `None` when its promise never
   * settles, which happens exactly for a readable file that does not parse.
   * Otherwise it returns what `LoadedTrainingTags` gives.
   */
  function LoadedTrainingTagsAsWritten(schema: Schema, file: Option<Content>): (r: Option<TrainingTags>)
    ensures r.None? <==> file.Some? && !file.value.Record?
    ensures r.Some? ==> r.value == LoadedTrainingTags(schema, file)
  {
    if ReadRecord(file).Pending? then None else Some(LoadedTrainingTags(schema, file))
  }

  /**
   * A training-tag file that exists, is readable and does not parse: as
   * written the load never returns, where the intended load gives the
   * configured structure.
   */
  lemma UnparsableTrainingTagsNeverLoad(schema: Schema, files: map<string, Content>, unreadable: set<string>)
    requires TrainingTagsFileName in files && TrainingTagsFileName !in unreadable
    requires !files[TrainingTagsFileName].Record?
    ensures LoadedTrainingTagsAsWritten(schema, ReadFrom(files, unreadable, TrainingTagsFileName)).None?
    ensures LoadedTrainingTags(schema, ReadFrom(files, unreadable, TrainingTagsFileName)) == schema.defaults
  {
  }

  method LoadTrainingTagsFromFile(schema: Schema, dir: Directory) returns (trainingTags: TrainingTags)
    ensures trainingTags == LoadedTrainingTags(schema, dir.Read(TrainingTagsFileName))
  {
    var file := dir.Read(TrainingTagsFileName);
    if file.Some? && file.value.Record? {
      trainingTags := file.value.fields;
    } else {
      trainingTags := schema.defaults;
    }
  }

  /** In the intended load, a missing, unreadable or unparsable file gives a copy of the configured structure. */
  lemma LoadedTrainingTagsFallback(schema: Schema, file: Option<Content>)
    requires file.None? || !file.value.Record?
    ensures LoadedTrainingTags(schema, file) == schema.defaults
  {
  }

  /** Saving the training tags and loading them again gives them back. */
  lemma TrainingTagsRoundTrip(files: map<string, Content>, unreadable: set<string>, unwritable: set<string>,
                              schema: Schema, trainingTags: TrainingTags)
    requires TrainingTagsFileName !in unreadable
    requires WriteTo(files, unwritable, TrainingTagsFileName, Record(trainingTags, None)).0 == Pass
    ensures var files' := WriteTo(files, unwritable, TrainingTagsFileName, Record(trainingTags, None)).1;
      LoadedTrainingTags(schema, ReadFrom(files', unreadable, TrainingTagsFileName)) == trainingTags
  {
  }

  method NumOfTrainingTags(trainingTags: TrainingTags) returns (n: nat)
    ensures n == SumLengths(trainingTags)
  {
    n := 0;
    var rest := trainingTags;
    while rest != map[]
      invariant n + SumLengths(rest) == SumLengths(trainingTags)
      decreases rest.Keys
    {
      var category :| category in rest.Keys;
      SumLengthsRemove(rest, category);
      n := n + |rest[category]|;
      assert (rest - {category}).Keys < rest.Keys;
      rest := rest - {category};
    }
  }

  /** The fallback taxonomy of an all-empty structure counts no tags. */
  lemma FallbackCountsNothing(schema: Schema, file: Option<Content>)
    requires file.None? || !file.value.Record?
    requires forall c :: c in schema.defaults ==> schema.defaults[c] == []
    ensures SumLengths(LoadedTrainingTags(schema, file)) == 0
  {
    SumLengthsAllEmpty(schema.defaults);
  }
}
