/** The calendar records exchanged between the generator, the API and the e-mail text. */
module Calendar {
  import opened Wrappers

  /**
   * One scheduled post (a JSON object with keys day, post_type, theme,
   * caption, hashtags). `hashtags` is `None` when the key is absent, which
   * only happens for calendars that clients send back.
   */
  datatype Post = Post(day: string, postType: string, theme: string, caption: string, hashtags: Option<seq<string>>)

  /** One week: its number and its posts, in order. */
  datatype Week = Week(week: int, posts: seq<Post>)
}
