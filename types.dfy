/** The record shapes shared by the catalog, the progress pages and the user store. */
module Types {
  /** A lesson of a course; `duration` is kept as the display string the catalog holds. */
  datatype Lesson = Lesson(id: string, title: string, duration: string, videoId: string, pdfUrl: string)

  /** A course of the catalog. The catalog entries carry no `order`, so the model has none. */
  datatype Course = Course(
    id: string, slug: string, title: string, description: string, thumbnail: string,
    lessons: seq<Lesson>)

  /** A learner profile. */
  datatype User = User(id: string, name: string, avatar: string)
}
