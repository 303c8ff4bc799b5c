/** Construction parameters shared by the synchronous and the pooled facade. */
module Config {
  import opened Driver

  /**
    The host the facade connects to: a falsy `ip` (absent or empty) becomes
    "localhost", any other value is kept as given.
  */
  function DefaultHost(ip: Option<string>): (host: string)
    ensures host != ""
    ensures ip == None || ip == Some("") ==> host == "localhost"
    ensures ip.Some? && ip.value != "" ==> host == ip.value
  {
    if ip.None? || ip.value == "" then "localhost" else ip.value
  }
}
