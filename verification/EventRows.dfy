/** Rows of the events table, and the event that is inserted lazily, always under the same slug. */
module EventRows {
  import opened Wrappers

  const DEFAULT_SLUG := "rally-tascas"

  /** What an event is called and how it is set up; the configuration is its JSON text. */
  datatype About = About(name: string, description: Option<string>, kind: string, config: string,
                         start: Option<int>, end: Option<int>)

  datatype Event = Event(slug: Option<string>, active: bool, current: bool, about: About)

  const DEFAULT_EVENT := Event(Some(DEFAULT_SLUG), true, true,
                               About("Rally Tascas", Some(""), "rally_tascas", "{}", None, None))
}
