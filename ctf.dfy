/**
 * The per-image structured tag store: one `.ctf` record per image, holding
 * the image's categories and its extra prompt under `extra_text`. Loading
 * reconciles the record against the configured tag structure and is meant
 * never to fail. As written, a file that does not parse makes the load wait
 * forever; the `...AsWritten` members model that, the others the intended
 * fallback.
 */
module CtfStore {
  import opened Wrappers
  import opened Tags
  import opened Storage
  import opened FileNames
  import opened Datasets

  /**
   * The record `saveImageTagsToCtFile` writes: a JSON copy of the tags, which
   * drops every category whose value is `undefined`, with `extra_text` then
   * set to the extra prompt (replacing a category of that name).
   */
  function CtfRecord(imageTags: ImageTags, extraText: string): (c: Content)
    ensures c.Record? && c.extraText == Some(extraText) && ExtraTextKey !in c.fields
    ensures forall k :: k != ExtraTextKey ==> Member(c.fields, k) == Lookup(imageTags, k)
  {
    Record(map c | c in imageTags && imageTags[c].Some? && c != ExtraTextKey :: imageTags[c].value, Some(extraText))
  }

  method SaveImageTagsToCtFile(imageName: string, imageTags: ImageTags, extraText: string, dir: Directory)
    returns (r: Outcome)
    modifies dir
    ensures (r, dir.files)
         == WriteTo(old(dir.files), dir.unwritable, ImageNameToCtFileName(imageName), CtfRecord(imageTags, extraText))
  {
    var fileContent := CtfRecord(imageTags, extraText);
    var filename := ImageNameToCtFileName(imageName);
    r := dir.Write(filename, fileContent);
  }

  /**
   * The extra prompt of a loaded record. The source takes `extra_text` only
   * when it is truthy; a string is falsy only when it is "", and then the
   * initial "" is kept, so a present `extra_text` is taken as it is.
   */
  function LoadedExtraText(extra: Option<string>): (s: string)
    ensures s != "" <==> extra.Some? && extra.value != ""
    ensures s != "" ==> s == extra.value
  {
    match extra
    case Some(s) => s
    case None => ""
  }

  /** The configured categories, each with the loaded record's value for it (`undefined` when absent). */
  function Reconcile(schema: Schema, fields: map<Category, seq<Tag>>): ImageTags
  {
    map c | c in schema.defaults :: Member(fields, c)
  }

  /**
   * What `loadImageTagsFromCtFile` is meant to return for what reading the
   * `.ctf` file gives: a parsed record reconciled against the structure, and
   * on any failure to read or to parse, the fallback of its `catch`.
   */
  function LoadedImageTags(schema: Schema, file: Option<Content>): (ImageTags, string)
  {
    match ReadRecord(file)
    case Resolved(fields, extra) => (Reconcile(schema, fields), LoadedExtraText(extra))
    case _ => (DefaultImageTags(schema), "")
  }

  /**
   * `loadImageTagsFromCtFile` as written: `None` when its promise never
   * settles, which happens exactly for a readable file that does not parse.
   * Otherwise it returns what `LoadedImageTags` gives.
   */
  function LoadedImageTagsAsWritten(schema: Schema, file: Option<Content>): (r: Option<(ImageTags, string)>)
    ensures r.None? <==> file.Some? && !file.value.Record?
    ensures r.Some? ==> r.value == LoadedImageTags(schema, file)
  {
    if ReadRecord(file).Pending? then None else Some(LoadedImageTags(schema, file))
  }

  /**
   * An image name without extension is its own `.ctf` name, so the load
   * reads the file under the image's own name. When that file is readable
   * and no record (the image itself, or the legacy text written over it,
   * rather than a structured save), as written the load never returns,
   * where the intended load falls back.
   */
  lemma ExtensionlessImageNeverLoads(schema: Schema, files: map<string, Content>, unreadable: set<string>,
                                     imageName: string)
    requires !HasExtension(imageName)
    requires imageName in files && imageName !in unreadable && !files[imageName].Record?
    ensures LoadedImageTagsAsWritten(schema, ReadFrom(files, unreadable, ImageNameToCtFileName(imageName))).None?
    ensures LoadedImageTags(schema, ReadFrom(files, unreadable, ImageNameToCtFileName(imageName)))
         == (DefaultImageTags(schema), "")
  {
    TagFileNamesCollide(imageName);
  }

  /**
   * The `forEach` over the categories of the fresh copy: each configured
   * category is overwritten with the loaded record's member, `undefined`
   * when the record lacks it.
   */
  method OverwriteCategories(schema: Schema, imageTags: ImageTags, fields: map<Category, seq<Tag>>)
    returns (r: ImageTags)
    requires imageTags.Keys == schema.defaults.Keys
    ensures r == Reconcile(schema, fields)
  {
    r := imageTags;
    var i := 0;
    while i < |schema.names|
      invariant 0 <= i <= |schema.names|
      invariant r.Keys == schema.defaults.Keys
      invariant forall j :: 0 <= j < i ==> r[schema.names[j]] == Member(fields, schema.names[j])
    {
      var category := schema.names[i];
      r := r[category := Member(fields, category)];
      i := i + 1;
    }
    ReconcileByIndex(schema, fields, r);
  }

  /** A map over the configured categories that agrees with the record at every index is `Reconcile`. */
  lemma ReconcileByIndex(schema: Schema, fields: map<Category, seq<Tag>>, r: ImageTags)
    requires r.Keys == schema.defaults.Keys
    requires forall j :: 0 <= j < |schema.names| ==> r[schema.names[j]] == Member(fields, schema.names[j])
    ensures r == Reconcile(schema, fields)
  {
    forall c | c in r
      ensures r[c] == Reconcile(schema, fields)[c]
    {
      var j :| 0 <= j < |schema.names| && schema.names[j] == c;
      assert r[schema.names[j]] == Member(fields, schema.names[j]);
    }
  }

  method LoadImageTagsFromCtFile(imageName: string, schema: Schema, dir: Directory)
    returns (imageTags: ImageTags, extraText: string)
    ensures (imageTags, extraText) == LoadedImageTags(schema, dir.Read(ImageNameToCtFileName(imageName)))
  {
    var ctTagFilename := ImageNameToCtFileName(imageName);
    imageTags := DefaultImageTags(schema);
    extraText := "";
    var file := dir.Read(ctTagFilename);
    if file.Some? && file.value.Record? {
      var loadedTags := file.value;
      imageTags := OverwriteCategories(schema, imageTags, loadedTags.fields);
      if loadedTags.extraText.Some? && loadedTags.extraText.value != "" {
        extraText := loadedTags.extraText.value;
      }
    }
  }

  /** The loaded tags always have exactly the configured categories, whatever the file holds. */
  lemma LoadedShape(schema: Schema, file: Option<Content>)
    ensures LoadedImageTags(schema, file).0.Keys == schema.defaults.Keys
  {
  }

  /** In the intended load, a missing, unreadable or unparsable file gives a fresh copy of the structure and "". */
  lemma LoadedFallback(schema: Schema, file: Option<Content>)
    requires file.None? || !file.value.Record?
    ensures LoadedImageTags(schema, file) == (DefaultImageTags(schema), "")
  {
  }

  /**
   * A parsed record gives, for each configured category, the record's list
   * or `undefined`; categories of the file that are not configured are
   * dropped; the extra prompt is `extra_text` when present, else "".
   */
  lemma LoadedReconciles(schema: Schema, fields: map<Category, seq<Tag>>, extra: Option<string>)
    requires extra.Some? ==> ExtraTextKey !in fields
    ensures var (tags, text) := LoadedImageTags(schema, Some(Record(fields, extra)));
      && (forall c :: c in schema.defaults && c in fields ==> tags[c] == Some(fields[c]))
      && (forall c :: c in schema.defaults && c !in fields ==> tags[c] == None)
      && (forall c :: c in fields && c !in schema.defaults ==> c !in tags)
      && text == (if extra.Some? then extra.value else "")
  {
  }

  /**
   * Saving then loading gives back, for every configured category, the
   * saved value, and the saved extra prompt; this needs no category to be
   * named `extra_text`.
   */
  lemma CtfRoundTrip(schema: Schema, imageTags: ImageTags, extraText: string)
    requires ExtraTextKey !in schema.defaults
    ensures LoadedImageTags(schema, Some(CtfRecord(imageTags, extraText)))
         == (map c | c in schema.defaults :: Lookup(imageTags, c), extraText)
  {
    var (tags, text) := LoadedImageTags(schema, Some(CtfRecord(imageTags, extraText)));
    assert tags == map c | c in schema.defaults :: Lookup(imageTags, c);
  }

  /** The round trip through a directory: a save that passed, then a load of the same image. */
  lemma CtfFileRoundTrip(files: map<string, Content>, unreadable: set<string>, unwritable: set<string>,
                         schema: Schema, imageName: string, imageTags: ImageTags, extraText: string)
    requires ExtraTextKey !in schema.defaults
    requires ImageNameToCtFileName(imageName) !in unreadable
    requires WriteTo(files, unwritable, ImageNameToCtFileName(imageName), CtfRecord(imageTags, extraText)).0 == Pass
    ensures var files' := WriteTo(files, unwritable, ImageNameToCtFileName(imageName), CtfRecord(imageTags, extraText)).1;
      LoadedImageTags(schema, ReadFrom(files', unreadable, ImageNameToCtFileName(imageName)))
        == (map c | c in schema.defaults :: Lookup(imageTags, c), extraText)
  {
    CtfRoundTrip(schema, imageTags, extraText);
  }

  /**
   * The structured save always writes, even with no defined category and an
   * empty extra prompt, where the legacy export writes nothing.
   */
  lemma CtfSaveWritesEvenWhenEmpty(files: map<string, Content>, unwritable: set<string>,
                                   imageName: string, imageTags: ImageTags)
    requires ImageNameToCtFileName(imageName) !in unwritable
    requires forall c :: c in imageTags ==> imageTags[c].None?
    ensures WriteTo(files, unwritable, ImageNameToCtFileName(imageName), CtfRecord(imageTags, ""))
         == (Pass, files[ImageNameToCtFileName(imageName) := Record(map[], Some(""))])
  {
    assert CtfRecord(imageTags, "").fields == map[];
  }

  /** `a[i] = v` on a JavaScript array with i at most its length: an update, or an append at the end. */
  function SetAt<T>(s: seq<T>, i: nat, v: T): seq<T>
    requires i <= |s|
  {
    if i < |s| then s[i := v] else s + [v]
  }

  function Max(a: int, b: int): int
  {
    if a < b then b else a
  }

  /** The body of the batch loop at index i: `dataset.imageTags[i] = imageTags; dataset.extraPrompts[i] = extraText`. */
  method LoadImageAt(dataset: Dataset, schema: Schema, dir: Directory, i: nat)
    requires i <= |dataset.imageTags| && i <= |dataset.extraPrompts| && i < |dataset.images|
    modifies dataset`imageTags, dataset`extraPrompts
    ensures |dataset.imageTags| == Max(|old(dataset.imageTags)|, i + 1)
    ensures |dataset.extraPrompts| == Max(|old(dataset.extraPrompts)|, i + 1)
    ensures forall j :: 0 <= j < |old(dataset.imageTags)| && j != i ==> dataset.imageTags[j] == old(dataset.imageTags[j])
    ensures forall j :: 0 <= j < |old(dataset.extraPrompts)| && j != i ==> dataset.extraPrompts[j] == old(dataset.extraPrompts[j])
    ensures (dataset.imageTags[i], dataset.extraPrompts[i])
         == LoadedImageTags(schema, dir.Read(ImageNameToCtFileName(dataset.images[i].name)))
  {
    var imageTags, extraText := LoadImageTagsFromCtFile(dataset.images[i].name, schema, dir);
    dataset.imageTags := SetAt(dataset.imageTags, i, imageTags);
    dataset.extraPrompts := SetAt(dataset.extraPrompts, i, extraText);
  }

  method LoadAllImageTagsFromCtFile(dataset: Dataset, schema: Schema, dir: Directory)
    modifies dataset`imageTags, dataset`extraPrompts
    ensures |dataset.imageTags| == Max(|old(dataset.imageTags)|, |dataset.images|)
    ensures |dataset.extraPrompts| == Max(|old(dataset.extraPrompts)|, |dataset.images|)
    ensures forall i :: 0 <= i < |dataset.images| ==>
      (dataset.imageTags[i], dataset.extraPrompts[i])
        == LoadedImageTags(schema, dir.Read(ImageNameToCtFileName(dataset.images[i].name)))
    ensures forall i :: |dataset.images| <= i < |old(dataset.imageTags)| ==> dataset.imageTags[i] == old(dataset.imageTags[i])
    ensures forall i :: |dataset.images| <= i < |old(dataset.extraPrompts)| ==> dataset.extraPrompts[i] == old(dataset.extraPrompts[i])
    ensures dataset.images == old(dataset.images) && dataset.trainingTags == old(dataset.trainingTags)
    ensures old(dataset.Valid()) ==> dataset.Valid()
  {
    var l := |dataset.images|;
    var i := 0;
    while i < l
      invariant 0 <= i <= l
      invariant |dataset.imageTags| == Max(|old(dataset.imageTags)|, i)
      invariant |dataset.extraPrompts| == Max(|old(dataset.extraPrompts)|, i)
      invariant forall j :: 0 <= j < i ==>
        (dataset.imageTags[j], dataset.extraPrompts[j])
          == LoadedImageTags(schema, dir.Read(ImageNameToCtFileName(dataset.images[j].name)))
      invariant forall j :: i <= j < |old(dataset.imageTags)| ==> dataset.imageTags[j] == old(dataset.imageTags[j])
      invariant forall j :: i <= j < |old(dataset.extraPrompts)| ==> dataset.extraPrompts[j] == old(dataset.extraPrompts[j])
    {
      LoadImageAt(dataset, schema, dir, i);
      i := i + 1;
    }
  }

  // ---------------------------------------------------------------------
  // The batch load as written

  /** The read of image i's `.ctf` file never settles. */
  predicate Stalls(files: map<string, Content>, unreadable: set<string>, images: seq<Image>, i: nat)
    requires i < |images|
  {
    ReadRecord(ReadFrom(files, unreadable, ImageNameToCtFileName(images[i].name))).Pending?
  }

  /**
   * How many images the batch load as written gets through from index i on:
   * the first index whose `.ctf` file does not parse, or the number of images.
   */
  function LoadedCount(files: map<string, Content>, unreadable: set<string>, images: seq<Image>, i: nat): (k: nat)
    requires i <= |images|
    ensures i <= k <= |images|
    ensures forall j :: i <= j < k ==> !Stalls(files, unreadable, images, j)
    ensures k < |images| ==> Stalls(files, unreadable, images, k)
    decreases |images| - i
  {
    if i == |images| then i
    else if Stalls(files, unreadable, images, i) then i
    else LoadedCount(files, unreadable, images, i + 1)
  }

  /**
   * `loadAllImageTagsFromCtFile` as written: it loads the images in order up
   * to the first one whose `.ctf` file does not parse, and there its `await`
   * never resumes. `settled` says whether the call returns at all; the images
   * from that index on keep their old tags and prompts.
   */
  method LoadAllImageTagsFromCtFileAsWritten(dataset: Dataset, schema: Schema, dir: Directory) returns (settled: bool)
    modifies dataset`imageTags, dataset`extraPrompts
    ensures settled <==> LoadedCount(dir.files, dir.unreadable, dataset.images, 0) == |dataset.images|
    ensures |dataset.imageTags| == Max(|old(dataset.imageTags)|, LoadedCount(dir.files, dir.unreadable, dataset.images, 0))
    ensures |dataset.extraPrompts| == Max(|old(dataset.extraPrompts)|, LoadedCount(dir.files, dir.unreadable, dataset.images, 0))
    ensures forall i :: 0 <= i < LoadedCount(dir.files, dir.unreadable, dataset.images, 0) ==>
      (dataset.imageTags[i], dataset.extraPrompts[i])
        == LoadedImageTags(schema, dir.Read(ImageNameToCtFileName(dataset.images[i].name)))
    ensures forall i :: LoadedCount(dir.files, dir.unreadable, dataset.images, 0) <= i < |old(dataset.imageTags)| ==>
      dataset.imageTags[i] == old(dataset.imageTags[i])
    ensures forall i :: LoadedCount(dir.files, dir.unreadable, dataset.images, 0) <= i < |old(dataset.extraPrompts)| ==>
      dataset.extraPrompts[i] == old(dataset.extraPrompts[i])
    ensures dataset.images == old(dataset.images) && dataset.trainingTags == old(dataset.trainingTags)
  {
    ghost var k := LoadedCount(dir.files, dir.unreadable, dataset.images, 0);
    var l := |dataset.images|;
    var i := 0;
    while i < l
      invariant 0 <= i <= l && i <= k
      invariant |dataset.imageTags| == Max(|old(dataset.imageTags)|, i)
      invariant |dataset.extraPrompts| == Max(|old(dataset.extraPrompts)|, i)
      invariant forall j :: 0 <= j < i ==>
        (dataset.imageTags[j], dataset.extraPrompts[j])
          == LoadedImageTags(schema, dir.Read(ImageNameToCtFileName(dataset.images[j].name)))
      invariant forall j :: i <= j < |old(dataset.imageTags)| ==> dataset.imageTags[j] == old(dataset.imageTags[j])
      invariant forall j :: i <= j < |old(dataset.extraPrompts)| ==> dataset.extraPrompts[j] == old(dataset.extraPrompts[j])
    {
      var file := dir.Read(ImageNameToCtFileName(dataset.images[i].name));
      if ReadRecord(file).Pending? {
        assert Stalls(dir.files, dir.unreadable, dataset.images, i);
        assert k == i;
        return false;
      }
      assert i < k;
      LoadImageAt(dataset, schema, dir, i);
      i := i + 1;
    }
    assert k == l;
    return true;
  }

  /**
   * Three images, the second one's `.ctf` file corrupt and the first one's
   * file missing or a record: as written, only the first image is ever
   * loaded, where the intended load fills in all three.
   */
  lemma CorruptSecondFileStopsBatchLoad(files: map<string, Content>, unreadable: set<string>, images: seq<Image>)
    requires |images| == 3
    requires !Stalls(files, unreadable, images, 0)
    requires ImageNameToCtFileName(images[1].name) in files - unreadable
    requires files[ImageNameToCtFileName(images[1].name)] == Corrupt
    ensures LoadedCount(files, unreadable, images, 0) == 1
  {
    assert Stalls(files, unreadable, images, 1);
  }
}
