/**
 * The `(string, error)` result of one lookup stage: a destination, the
 * package's distinguished `errNotFound`, or any other error (compared by
 * identity in the source, so an unrelated error whose text happens to be
 * "Not found" is still `Failed`).
 */
module Outcomes {

  /** The text of `errNotFound` (playback.go:25). */
  const NotFoundText := "Not found"

  datatype Outcome = Found(dst: string) | NotFound | Failed(text: string)

  /**
   * What a playback shows for a stage's result (playback.go:81-165): the
   * destination, or `fmt.Sprint` of the error, which is its text.
   */
  function Render(o: Outcome): (s: string)
    ensures o.Found? ==> s == o.dst
    ensures o.NotFound? ==> s == NotFoundText
    ensures o.Failed? ==> s == o.text
  {
    match o
    case Found(d) => d
    case NotFound => NotFoundText
    case Failed(t) => t
  }
}
