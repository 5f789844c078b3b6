/** The `Tweet` schema: a required `content` of at most 280 characters and a
    required owner. `maxlength` counts UTF-16 code units, as JavaScript's
    `length` does. */
module TweetModel {
  import opened Common
  import opened JsStrings

  const MaxContentLength: nat := 280

  datatype Tweet = Tweet(content: Option<string>, owner: Option<Id>)

  /** The required and `maxlength` validators. */
  predicate TweetValid(t: Tweet)
  {
    && Truthy(t.content)
    && Utf16Length(t.content.value) <= MaxContentLength
    && t.owner.Some?
  }

  /** Content of at most 140 code points always fits; content of more than
      280 code points never does. */
  lemma ContentLengthBounds(content: string, owner: Id)
    ensures content != "" && |content| <= MaxContentLength / 2 ==> TweetValid(Tweet(Some(content), Some(owner)))
    ensures |content| > MaxContentLength ==> !TweetValid(Tweet(Some(content), Some(owner)))
  {
  }
}
