/** The records the services exchange. */
module Entities {
  import opened Wrappers

  /** A wall-clock date of a catalogue item (UTC, minute resolution). */
  datatype DateTime = DateTime(year: int, month: int, day: int, hour: int, minute: int)

  /** A news article of the catalogue. */
  datatype News = News(id: int, title: string, content: string, createdAt: DateTime)

  /**
   * A comment. `parentId` is the optional reference to another comment;
   * `createdAt` is an abstract, monotonically assigned timestamp.
   */
  datatype Comment = Comment(id: int, newsId: int, parentId: Option<int>, text: string, createdAt: int)
}
