module FileTags {
  import opened Bytes

  /** struct file_tags without the marks of misnamed and unreadable files. `comments` and
      `timed` are the bits TAGS_COMMENTS and TAGS_TIME of its `filled` field; a time of -1
      means that it is not known. */
  datatype Tags = Tags(title: seq<Byte>, artist: seq<Byte>, album: seq<Byte>,
                       track: int, year: int, time: int, comments: bool, timed: bool)

  const NO_TAGS: Tags := Tags([], [], [], -1, -1, -1, false, false)
}
