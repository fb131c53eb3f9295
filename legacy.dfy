/**
 * The legacy flat-text export: every tag of every configured category, in
 * key order, joined by ",", followed by the extra prompt, written to the
 * image's `.txt` file. Nothing is written when every category is a defined,
 * empty list and there is no prompt.
 */
module LegacyExport {
  import opened Wrappers
  import opened Tags
  import opened Storage
  import opened FileNames
  import opened Datasets

  /** One element of `allTags`: a tag, or `undefined`. */
  type Element = Option<Tag>

  /**
   * What `allTags.concat(v)` appends: the tags of a list, or a single
   * `undefined` element when the category's value is `undefined`.
   */
  function Appended(v: Option<seq<Tag>>): seq<Element>
  {
    match v
    case None => [None]
    case Some(tags) => seq(|tags|, i requires 0 <= i < |tags| => Some(tags[i]))
  }

  /** `allTags` after the first n categories of `names` have been visited in order. */
  function AllTags(names: seq<Category>, tags: ImageTags, n: nat): seq<Element>
    requires n <= |names|
  {
    if n == 0 then [] else AllTags(names, tags, n - 1) + Appended(Lookup(tags, names[n - 1]))
  }

  /** `allTags` once every configured category has been visited. */
  function SchemaTags(schema: Schema, tags: ImageTags): seq<Element>
  {
    AllTags(schema.names, tags, |schema.names|)
  }

  /** How `String` shows one array element: `undefined` as the empty string. */
  function Shown(x: Element): string
  {
    match x
    case None => ""
    case Some(t) => t
  }

  /**
   * `String(xs)`: the elements shown and separated by ",". It is "" exactly
   * when there is no element or a single one shown as "": two `undefined`
   * elements already give ",".
   */
  function Join(xs: seq<Element>): (r: string)
    ensures r == "" <==> |xs| == 0 || (|xs| == 1 && Shown(xs[0]) == "")
  {
    if xs == [] then ""
    else if |xs| == 1 then Shown(xs[0])
    else Shown(xs[0]) + "," + Join(xs[1..])
  }

  /**
   * The joined tags with the extra prompt appended, or `None` when nothing is
   * to be written: the file begins with the joined tags, ends with the
   * prompt, and has one "," between them exactly when both are non-empty.
   */
  function LegacyText(allTags: seq<Element>, extraPrompt: string): (r: Option<string>)
    ensures r.None? <==> |allTags| == 0 && extraPrompt == ""
    ensures r.Some? ==>
      var joined := Join(allTags);
      && |r.value| == |joined| + |extraPrompt| + (if joined != "" && extraPrompt != "" then 1 else 0)
      && r.value[..|joined|] == joined
      && r.value[|r.value| - |extraPrompt|..] == extraPrompt
      && (joined != "" && extraPrompt != "" ==> r.value[|joined|] == ',')
  {
    if |allTags| == 0 && extraPrompt == "" then None
    else
      var tagStr := Join(allTags);
      if extraPrompt == "" then Some(tagStr)
      else if tagStr == "" then Some(extraPrompt)
      else Some(tagStr + "," + extraPrompt)
  }

  /** The content of one image's legacy tag file, or `None` for the no-op. */
  function LegacyContent(schema: Schema, tags: ImageTags, extraPrompt: string): Option<string>
  {
    LegacyText(SchemaTags(schema, tags), extraPrompt)
  }

  /** One image's planned export: its `.txt` file name and what to write there, if anything. */
  datatype Export = Export(fileName: string, content: Option<string>)

  /** Carrying out one planned export. */
  function ExportStep(files: map<string, Content>, unwritable: set<string>, e: Export): (Outcome, map<string, Content>)
  {
    match e.content
    case None => (Pass, files)
    case Some(s) => WriteTo(files, unwritable, e.fileName, Text(s))
  }

  /** The `forEach` that concatenates every configured category's value, in key order. */
  method CollectTags(schema: Schema, imageTags: ImageTags) returns (allTags: seq<Element>)
    ensures allTags == SchemaTags(schema, imageTags)
  {
    allTags := [];
    var i := 0;
    while i < |schema.names|
      invariant 0 <= i <= |schema.names|
      invariant allTags == AllTags(schema.names, imageTags, i)
    {
      allTags := allTags + Appended(Lookup(imageTags, schema.names[i]));
      i := i + 1;
    }
  }

  method SaveImageTagsToTraditionalTxtFile(imageName: string, imageTags: ImageTags, extraPrompt: string,
                                           schema: Schema, dir: Directory) returns (r: Outcome)
    modifies dir
    ensures (r, dir.files) == ExportStep(old(dir.files), dir.unwritable, PlannedExport(schema, imageName, imageTags, extraPrompt))
  {
    var txtFileName := ImageNameToTraditionalTagFileName(imageName);
    var allTags := CollectTags(schema, imageTags);
    if |allTags| == 0 && extraPrompt == "" {
      return Pass;
    }
    var tagStr := Join(allTags);
    ghost var joined := tagStr;
    if extraPrompt != "" {
      if tagStr != "" {
        tagStr := tagStr + ",";
      }
      tagStr := tagStr + extraPrompt;
      assert joined == "" ==> tagStr == extraPrompt;
    }
    assert LegacyText(allTags, extraPrompt) == Some(tagStr) by {
      assert joined == Join(allTags);
    }
    r := dir.Write(txtFileName, Text(tagStr));
  }

  // ---------------------------------------------------------------------
  // The no-op rule

  /** `allTags` stays empty exactly when every category is a defined, empty list. */
  lemma {:induction false} AllTagsEmpty(names: seq<Category>, tags: ImageTags, n: nat)
    requires n <= |names|
    ensures |AllTags(names, tags, n)| == 0
        <==> forall i :: 0 <= i < n ==> Lookup(tags, names[i]) == Some([])
  {
    if n > 0 {
      AllTagsEmpty(names, tags, n - 1);
    }
  }

  /**
   * The export writes nothing exactly when the extra prompt is "" and every
   * configured category holds an empty list. A category whose value is
   * `undefined` still makes the export write its file.
   */
  lemma LegacyNoOp(schema: Schema, tags: ImageTags, extraPrompt: string)
    ensures LegacyContent(schema, tags, extraPrompt) == None
        <==> extraPrompt == "" && forall i :: 0 <= i < |schema.names| ==> Lookup(tags, schema.names[i]) == Some([])
  {
    AllTagsEmpty(schema.names, tags, |schema.names|);
  }

  /** With one `undefined` category at k and every other a defined, empty list, `allTags` is one `undefined`. */
  lemma {:induction false} AllTagsOneUndefined(names: seq<Category>, tags: ImageTags, k: nat, n: nat)
    requires k < |names| && n <= |names|
    requires Lookup(tags, names[k]) == None
    requires forall i :: 0 <= i < |names| && i != k ==> Lookup(tags, names[i]) == Some([])
    ensures AllTags(names, tags, n) == if n <= k then [] else [None]
  {
    if n > 0 {
      AllTagsOneUndefined(names, tags, k, n - 1);
      if n - 1 != k {
        assert Appended(Lookup(tags, names[n - 1])) == [];
      }
    }
  }

  /**
   * One configured category that is `undefined`, every other a defined,
   * empty list, and no prompt: an empty file is written instead of none.
   */
  lemma LegacyUndefinedCategoryWritesEmptyFile(schema: Schema, tags: ImageTags, k: nat)
    requires k < |schema.names|
    requires Lookup(tags, schema.names[k]) == None
    requires forall i :: 0 <= i < |schema.names| && i != k ==> Lookup(tags, schema.names[i]) == Some([])
    ensures LegacyContent(schema, tags, "") == Some("")
  {
    AllTagsOneUndefined(schema.names, tags, k, |schema.names|);
  }

  /** With every one of the first n categories `undefined`, `allTags` is n `undefined` elements. */
  lemma {:induction false} AllTagsAllUndefined(names: seq<Category>, tags: ImageTags, n: nat)
    requires n <= |names|
    requires forall i :: 0 <= i < n ==> Lookup(tags, names[i]) == None
    ensures AllTags(names, tags, n) == seq(n, i => None)
  {
    if n > 0 {
      AllTagsAllUndefined(names, tags, n - 1);
      assert seq<Element>(n - 1, i => None) + [None] == seq(n, i => None);
    }
  }

  /** `String` of n `undefined` elements: n - 1 commas. */
  lemma {:induction false} JoinUndefined(n: nat)
    requires n >= 1
    ensures Join(seq(n, i => None)) == seq(n - 1, i => ',')
  {
    if n > 1 {
      var xs: seq<Element> := seq(n, i => None);
      JoinUndefined(n - 1);
      assert xs[1..] == seq(n - 1, i => None);
      assert seq(n - 1, i => ',') == [','] + seq(n - 2, i => ',');
    }
  }

  /**
   * Each `undefined` category is one empty field: with every configured
   * category `undefined` and no prompt, the file holds one "," fewer than
   * there are categories.
   */
  lemma LegacyUndefinedCategoriesWriteCommas(schema: Schema, tags: ImageTags)
    requires |schema.names| >= 1
    requires forall i :: 0 <= i < |schema.names| ==> Lookup(tags, schema.names[i]) == None
    ensures LegacyContent(schema, tags, "") == Some(seq(|schema.names| - 1, i => ','))
  {
    AllTagsAllUndefined(schema.names, tags, |schema.names|);
    JoinUndefined(|schema.names|);
  }

  // ---------------------------------------------------------------------
  // The join rule

  /** The tags of the first n categories that are defined, concatenated in the order of `names`. */
  function Flatten(names: seq<Category>, tags: ImageTags, n: nat): seq<Tag>
    requires n <= |names|
  {
    if n == 0 then []
    else Flatten(names, tags, n - 1) + match Lookup(tags, names[n - 1]) case Some(l) => l case None => []
  }

  function Lift(ts: seq<Tag>): seq<Element>
  {
    seq(|ts|, i requires 0 <= i < |ts| => Some(ts[i]))
  }

  /** When every category is defined, `allTags` is exactly the concatenated tag lists. */
  lemma {:induction false} AllTagsDefined(names: seq<Category>, tags: ImageTags, n: nat)
    requires n <= |names|
    requires forall i :: 0 <= i < n ==> Lookup(tags, names[i]).Some?
    ensures AllTags(names, tags, n) == Lift(Flatten(names, tags, n))
  {
    if n > 0 {
      AllTagsDefined(names, tags, n - 1);
    }
  }

  /** `s.split(",")`. */
  function Split(s: string): (r: seq<string>)
    ensures |r| >= 1
  {
    if s == [] then [""]
    else if s[0] == ',' then [""] + Split(s[1..])
    else
      var rest := Split(s[1..]);
      [[s[0]] + rest[0]] + rest[1..]
  }

  lemma {:induction false} SplitWithoutComma(t: string)
    requires ',' !in t
    ensures Split(t) == [t]
  {
    if t != [] {
      SplitWithoutComma(t[1..]);
      assert [t[0]] + t[1..] == t;
    }
  }

  lemma {:induction false} SplitAfterField(t: string, u: string)
    requires ',' !in t
    ensures Split(t + "," + u) == [t] + Split(u)
  {
    if t == [] {
      assert t + "," + u == [','] + u;
      assert ([','] + u)[1..] == u;
    } else {
      assert (t + "," + u)[1..] == t[1..] + "," + u;
      SplitAfterField(t[1..], u);
      assert [t[0]] + t[1..] == t;
    }
  }

  /** Splitting the joined tags at commas gives the tags back, when none contains a comma. */
  lemma {:induction false} SplitJoin(ts: seq<Tag>)
    requires ts != []
    requires forall i :: 0 <= i < |ts| ==> ',' !in ts[i]
    ensures Split(Join(Lift(ts))) == ts
  {
    if |ts| == 1 {
      SplitWithoutComma(ts[0]);
    } else {
      assert Lift(ts)[1..] == Lift(ts[1..]);
      SplitAfterField(ts[0], Join(Lift(ts[1..])));
      SplitJoin(ts[1..]);
      assert [ts[0]] + ts[1..] == ts;
    }
  }

  /**
   * The legacy file, split at its commas, lists the tags of the configured
   * categories in key order and list order, followed by the extra prompt
   * when there is one; this holds when no tag is empty and neither tags nor
   * prompt contain a comma.
   */
  lemma LegacyContentSplits(schema: Schema, tags: ImageTags, extraPrompt: string)
    requires forall i :: 0 <= i < |schema.names| ==> Lookup(tags, schema.names[i]).Some?
    requires forall t :: t in Flatten(schema.names, tags, |schema.names|) ==> t != "" && ',' !in t
    requires ',' !in extraPrompt
    ensures LegacyContent(schema, tags, extraPrompt).Some?
        <==> Flatten(schema.names, tags, |schema.names|) != [] || extraPrompt != ""
    ensures LegacyContent(schema, tags, extraPrompt).Some? ==>
      Split(LegacyContent(schema, tags, extraPrompt).value)
        == Flatten(schema.names, tags, |schema.names|) + (if extraPrompt == "" then [] else [extraPrompt])
  {
    var f := Flatten(schema.names, tags, |schema.names|);
    AllTagsDefined(schema.names, tags, |schema.names|);
    if f == [] {
      if extraPrompt != "" {
        SplitWithoutComma(extraPrompt);
      }
    } else {
      assert f[0] in f;
      assert Lift(f)[0] == Some(f[0]);
      SplitJoin(f);
      if extraPrompt != "" {
        SplitAfterField(extraPrompt, "");
        var joined := Join(Lift(f));
        assert Split(joined + "," + extraPrompt) == f + [extraPrompt] by {
          SplitJoinThen(f, extraPrompt);
        }
      }
    }
  }

  /** Joining the tags and then one more field, split again. */
  lemma {:induction false} SplitJoinThen(ts: seq<Tag>, last: string)
    requires ts != []
    requires forall i :: 0 <= i < |ts| ==> ',' !in ts[i]
    requires ',' !in last
    ensures Split(Join(Lift(ts)) + "," + last) == ts + [last]
  {
    if |ts| == 1 {
      SplitAfterField(ts[0], last);
      SplitWithoutComma(last);
    } else {
      assert Lift(ts)[1..] == Lift(ts[1..]);
      var rest := Join(Lift(ts[1..]));
      assert Join(Lift(ts)) + "," + last == ts[0] + "," + (rest + "," + last);
      SplitAfterField(ts[0], rest + "," + last);
      SplitJoinThen(ts[1..], last);
      assert [ts[0]] + (ts[1..] + [last]) == ts + [last];
    }
  }

  /** The example of a two-category structure with a prompt: "red,blue,soft light". */
  lemma LegacyExample()
    ensures LegacyContent(ExampleSchema(), ExampleTags(), "soft light") == Some("red,blue,soft light")
  {
    ExampleAllTags();
    ExampleJoin();
    assert "red,blue" + "," + "soft light" == "red,blue,soft light";
  }

  function ExampleSchema(): Schema
  {
    Structure(["colors", "style"], map["colors" := [], "style" := []])
  }

  function ExampleTags(): ImageTags
  {
    map["colors" := Some(["red", "blue"]), "style" := Some([])]
  }

  lemma ExampleAllTags()
    ensures SchemaTags(ExampleSchema(), ExampleTags()) == [Some("red"), Some("blue")]
  {
    var names := ExampleSchema().names;
    assert Appended(Some(["red", "blue"])) == [Some("red"), Some("blue")];
    assert AllTags(names, ExampleTags(), 1) == [Some("red"), Some("blue")];
  }

  lemma ExampleJoin()
    ensures Join([Some("red"), Some("blue")]) == "red,blue"
  {
    assert [Some("red"), Some("blue")][1..] == [Some("blue")];
  }

  // ---------------------------------------------------------------------
  // The batch export

  /** The planned export of one image. */
  function PlannedExport(schema: Schema, imageName: string, tags: ImageTags, extraPrompt: string): Export
  {
    Export(ImageNameToTraditionalTagFileName(imageName), LegacyContent(schema, tags, extraPrompt))
  }

  /** The planned exports of the images of a dataset, in index order. */
  function Exports(schema: Schema, images: seq<Image>, tags: seq<ImageTags>, prompts: seq<string>): seq<Export>
    requires |tags| == |images| && |prompts| == |images|
  {
    seq(|images|, i requires 0 <= i < |images| => PlannedExport(schema, images[i].name, tags[i], prompts[i]))
  }

  /**
   * The first n planned exports carried out in index order, stopping at the
   * first failure. A failure names an unwritable file, and no file is ever
   * removed.
   */
  function LegacyBatch(files: map<string, Content>, unwritable: set<string>, es: seq<Export>, n: nat)
    : (r: (Outcome, map<string, Content>))
    requires n <= |es|
    ensures r.0.Fail? ==> r.0.error.fileName in unwritable
    ensures files.Keys <= r.1.Keys
  {
    if n == 0 then (Pass, files)
    else
      var prev := LegacyBatch(files, unwritable, es, n - 1);
      if prev.0.Fail? then prev else ExportStep(prev.1, unwritable, es[n - 1])
  }

  /** Once an image fails, no later image changes anything. */
  lemma {:induction false} LegacyBatchFailureSticks(files: map<string, Content>, unwritable: set<string>,
                                                    es: seq<Export>, k: nat, n: nat)
    requires k <= n <= |es|
    requires LegacyBatch(files, unwritable, es, k).0.Fail?
    ensures LegacyBatch(files, unwritable, es, n) == LegacyBatch(files, unwritable, es, k)
  {
    if n > k {
      LegacyBatchFailureSticks(files, unwritable, es, k, n - 1);
    }
  }

  /**
   * A batch fails exactly at the first image i that has content to write and
   * whose `.txt` file cannot be written; the error names that file, and the
   * files are those left by images 0..i-1.
   */
  lemma {:induction false} LegacyBatchFailure(files: map<string, Content>, unwritable: set<string>,
                                              es: seq<Export>, n: nat)
    requires n <= |es|
    requires LegacyBatch(files, unwritable, es, n).0.Fail?
    ensures exists i :: (0 <= i < n
      && LegacyBatch(files, unwritable, es, i).0 == Pass
      && es[i].content.Some? && es[i].fileName in unwritable
      && LegacyBatch(files, unwritable, es, n)
         == (Fail(IoError(es[i].fileName)), LegacyBatch(files, unwritable, es, i).1))
  {
    var prev := LegacyBatch(files, unwritable, es, n - 1);
    if prev.0.Fail? {
      LegacyBatchFailure(files, unwritable, es, n - 1);
    } else {
      assert LegacyBatch(files, unwritable, es, n - 1).0 == Pass;
    }
  }

  /** A batch passes exactly when no image with content to write has an unwritable `.txt` file. */
  lemma {:induction false} LegacyBatchPasses(files: map<string, Content>, unwritable: set<string>,
                                             es: seq<Export>, n: nat)
    requires n <= |es|
    ensures LegacyBatch(files, unwritable, es, n).0 == Pass
        <==> forall j :: 0 <= j < n ==> es[j].content.None? || es[j].fileName !in unwritable
  {
    if n > 0 {
      LegacyBatchPasses(files, unwritable, es, n - 1);
      if LegacyBatch(files, unwritable, es, n - 1).0.Fail? {
        LegacyBatchFailureSticks(files, unwritable, es, n - 1, n);
      }
    }
  }

  /** Only the `.txt` files of the exported images change. */
  lemma {:induction false} LegacyBatchFrame(files: map<string, Content>, unwritable: set<string>,
                                            es: seq<Export>, n: nat, f: string)
    requires n <= |es|
    requires forall j :: 0 <= j < n ==> f != es[j].fileName
    ensures ReadFrom(LegacyBatch(files, unwritable, es, n).1, {}, f) == ReadFrom(files, {}, f)
  {
    if n > 0 {
      LegacyBatchFrame(files, unwritable, es, n - 1, f);
    }
  }

  /**
   * After a batch that passes, an image whose `.txt` name no other image
   * shares has its legacy content in that file, or the file is left as it
   * was when that image had nothing to write.
   */
  lemma {:induction false} LegacyBatchWrites(files: map<string, Content>, unwritable: set<string>,
                                             es: seq<Export>, n: nat, j: nat)
    requires j < n <= |es|
    requires forall k :: 0 <= k < n && k != j ==> es[k].fileName != es[j].fileName
    requires LegacyBatch(files, unwritable, es, n).0 == Pass
    ensures ReadFrom(LegacyBatch(files, unwritable, es, n).1, {}, es[j].fileName)
         == match es[j].content
            case Some(s) => Some(Text(s))
            case None => ReadFrom(files, {}, es[j].fileName)
  {
    if j < n - 1 {
      LegacyBatchWrites(files, unwritable, es, n - 1, j);
    } else {
      LegacyBatchFrame(files, unwritable, es, n - 1, es[j].fileName);
    }
  }

  /**
   * Images that share a `.txt` name (`cat.png` and `cat.jpg`) overwrite each
   * other: after a passing batch the file holds the content of the last of
   * them that had something to write.
   */
  lemma {:induction false} LegacyBatchLastWriteWins(files: map<string, Content>, unwritable: set<string>,
                                                    es: seq<Export>, n: nat, j: nat)
    requires j < n <= |es| && es[j].content.Some?
    requires forall k :: j < k < n && es[k].fileName == es[j].fileName ==> es[k].content.None?
    requires LegacyBatch(files, unwritable, es, n).0 == Pass
    ensures ReadFrom(LegacyBatch(files, unwritable, es, n).1, {}, es[j].fileName) == Some(Text(es[j].content.value))
  {
    if j < n - 1 {
      LegacyBatchLastWriteWins(files, unwritable, es, n - 1, j);
    }
  }

  /** One more export after a prefix that passed; a failure there is the result of the whole batch. */
  lemma LegacyBatchNext(files: map<string, Content>, unwritable: set<string>, es: seq<Export>, i: nat,
                        r: Outcome, files': map<string, Content>)
    requires i < |es|
    requires LegacyBatch(files, unwritable, es, i).0 == Pass
    requires (r, files') == ExportStep(LegacyBatch(files, unwritable, es, i).1, unwritable, es[i])
    ensures LegacyBatch(files, unwritable, es, i + 1) == (r, files')
    ensures r.Fail? ==> LegacyBatch(files, unwritable, es, |es|) == (r, files')
  {
    if r.Fail? {
      LegacyBatchFailureSticks(files, unwritable, es, i + 1, |es|);
    }
  }

  /** Exporting image i after images 0..i-1 passed: one more step of the batch. */
  method SaveImageAt(dataset: Dataset, schema: Schema, dir: Directory, i: nat,
                     ghost files0: map<string, Content>, ghost es: seq<Export>) returns (r: Outcome)
    requires dataset.Valid() && i < |dataset.images|
    requires es == Exports(schema, dataset.images, dataset.imageTags, dataset.extraPrompts)
    requires LegacyBatch(files0, dir.unwritable, es, i) == (Pass, dir.files)
    modifies dir
    ensures LegacyBatch(files0, dir.unwritable, es, i + 1) == (r, dir.files)
  {
    r := SaveImageTagsToTraditionalTxtFile(dataset.images[i].name, dataset.imageTags[i],
                                           dataset.extraPrompts[i], schema, dir);
  }

  method SaveAllImageTagsToTraditionalTxtFiles(dataset: Dataset, schema: Schema, dir: Directory) returns (r: Outcome)
    requires dataset.Valid()
    modifies dir
    ensures (r, dir.files)
         == LegacyBatch(old(dir.files), dir.unwritable,
                        Exports(schema, dataset.images, dataset.imageTags, dataset.extraPrompts), |dataset.images|)
  {
    ghost var es := Exports(schema, dataset.images, dataset.imageTags, dataset.extraPrompts);
    var i := 0;
    var l := |dataset.images|;
    while i < l
      invariant 0 <= i <= l
      invariant (Pass, dir.files) == LegacyBatch(old(dir.files), dir.unwritable, es, i)
    {
      var ri := SaveImageAt(dataset, schema, dir, i, old(dir.files), es);
      if ri.Fail? {
        LegacyBatchFailureSticks(old(dir.files), dir.unwritable, es, i + 1, l);
        return ri;
      }
      i := i + 1;
    }
    r := Pass;
  }
}
