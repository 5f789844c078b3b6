/** The `Video` schema: four required strings, a required duration and owner,
    `views` defaulting to 0 and `isPublished` to true. */
module VideoModel {
  import opened Common

  datatype Video = Video(
    videoFile: Option<string>,
    thumbnail: Option<string>,
    title: Option<string>,
    description: Option<string>,
    duration: Option<int>,
    views: int,
    isPublished: bool,
    owner: Option<Id>)

  /** The required validators (a required string must be present and
      non-empty; a required number or id must be present). */
  predicate VideoValid(v: Video)
  {
    && Truthy(v.videoFile)
    && Truthy(v.thumbnail)
    && Truthy(v.title)
    && Truthy(v.description)
    && v.duration.Some?
    && v.owner.Some?
  }

  /** A new document from the fields a caller gives; `views` and
      `isPublished` take their defaults. */
  function NewVideo(videoFile: Option<string>, thumbnail: Option<string>, title: Option<string>,
                    description: Option<string>, duration: Option<int>, owner: Option<Id>): (v: Video)
    ensures v.views == 0 && v.isPublished
    ensures v.videoFile == videoFile && v.thumbnail == thumbnail && v.title == title
    ensures v.description == description && v.duration == duration && v.owner == owner
  {
    Video(videoFile, thumbnail, title, description, duration, 0, true, owner)
  }

  /** A new video passes validation exactly when every required field was
      given; one without a duration never does. */
  lemma NewVideoValidIff(videoFile: Option<string>, thumbnail: Option<string>, title: Option<string>,
                         description: Option<string>, duration: Option<int>, owner: Option<Id>)
    ensures VideoValid(NewVideo(videoFile, thumbnail, title, description, duration, owner)) <==>
      Truthy(videoFile) && Truthy(thumbnail) && Truthy(title) && Truthy(description)
      && duration.Some? && owner.Some?
    ensures duration.None? ==> !VideoValid(NewVideo(videoFile, thumbnail, title, description, duration, owner))
  {
  }
}
