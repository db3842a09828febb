/** Splitting a `user@host` target, as `GetUserHost` in Program.cs does. */
module UserHost {
  import opened Wrappers
  import opened Text

  /** `host.Split('@')` when it has exactly two pieces; `None` for `null` and for any other
      number of `@` (the source prints a format message and returns `null`). */
  function GetUserHost(host: Option<string>): (r: Option<(string, string)>)
    ensures r.Some? <==> host.Some? && Occurrences(host.value, '@') == 1
    ensures r.Some? ==> r.value.0 + "@" + r.value.1 == host.value
    ensures r.Some? ==> '@' !in r.value.0 && '@' !in r.value.1
  {
    match host
    case None => None
    case Some(h) =>
      var parts := Split(h, '@');
      if |parts| != 2 then None
      else
        SplitJoin(h, '@');
        assert parts[1..] == [parts[1]];
        Some((parts[0], parts[1]))
  }

  /** Any user and host without `@`, empty ones included, come back out of their `user@host`. */
  lemma UserHostRoundTrip(user: string, host: string)
    requires '@' !in user && '@' !in host
    ensures GetUserHost(Some(user + "@" + host)) == Some((user, host))
  {
    var parts := [user, host];
    assert parts[1..] == [host];
    assert Join(parts, '@') == user + "@" + host;
    JoinSplit(parts, '@');
  }
}
