/** What a view hands back to the web framework. */
module Http {
  import opened Aggregates

  /** A redirect after a successful write, the page (possibly showing form
      errors), a 404, or an exception that escapes the view (a server
      error). */
  datatype Response = Redirect | Render | NotFound | ServerError

  /** A list page: the rows shown and the `battery_total` under them; or an
      exception raised before the page is rendered. */
  datatype Page<T> = Page(rows: map<Pk, T>, total: Option<int>) | Failed
}
