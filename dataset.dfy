/**
 * The in-memory dataset: three index-aligned arrays (images, per-image tags,
 * per-image extra prompts) and the project-wide training tags.
 */
module Datasets {
  import opened Tags

  /** An image of the dataset; only its file name matters here. */
  datatype Image = Image(name: string)

  class Dataset {
    var images: seq<Image>
    var imageTags: seq<ImageTags>
    var extraPrompts: seq<string>
    var trainingTags: TrainingTags

    /** Index i refers to the same image in all three arrays. */
    ghost predicate Valid()
      reads this
    {
      |imageTags| == |images| && |extraPrompts| == |images|
    }

    constructor (images: seq<Image>, imageTags: seq<ImageTags>, extraPrompts: seq<string>, trainingTags: TrainingTags)
      ensures this.images == images && this.imageTags == imageTags
      ensures this.extraPrompts == extraPrompts && this.trainingTags == trainingTags
      ensures |imageTags| == |images| && |extraPrompts| == |images| ==> Valid()
    {
      this.images := images;
      this.imageTags := imageTags;
      this.extraPrompts := extraPrompts;
      this.trainingTags := trainingTags;
    }
  }
}
