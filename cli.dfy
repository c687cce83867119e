/** The command line's recognition of an input argument as a web address:
    take it as a URL when it parses as an HTTP(S) URL with a plausible host,
    otherwise try once more with `https://` in front. */
module Cli {
  import opened Wrappers
  import opened Strings
  import opened Urls

  /** The host is present and non-empty, contains a dot and never two dots in
      a row. */
  predicate PlausibleHost(host: Option<string>) {
    host.Some? && host.value != "" && !Contains(host.value, "..") && '.' in host.value
  }

  /** `is_valid_http_url` */
  function IsValidHttpUrl(url: Url): (b: bool)
    ensures b ==> url.scheme == "http" || url.scheme == "https"
    ensures b ==> url.host.Some? && |url.host.value| > 0
    ensures b ==> exists i :: 0 <= i < |url.host.value| && url.host.value[i] == '.'
    ensures b ==> var h := url.host.value;
                  forall i :: 0 <= i < |h| - 1 ==> !(h[i] == '.' && h[i + 1] == '.')
    ensures ((url.scheme == "http" || url.scheme == "https") && url.host.Some? && |url.host.value| > 0 &&
             (exists i :: 0 <= i < |url.host.value| && url.host.value[i] == '.') &&
             (var h := url.host.value;
              forall i :: 0 <= i < |h| - 1 ==> !(h[i] == '.' && h[i + 1] == '.'))) ==> b
  {
    if url.host.Some? then
      ContainsPair(url.host.value, '.', '.');
      (url.scheme == "http" || url.scheme == "https") && PlausibleHost(url.host)
    else
      false
  }

  const HttpsPrefix: string := "https://"

  /** `try_parse_url` */
  function TryParseUrl(input: string, parse: UrlParser): (r: Option<Url>)
    ensures r.Some? ==> IsValidHttpUrl(r.value)
    ensures r.Some? ==> r == parse(input) || r == parse(HttpsPrefix + input)
    ensures parse(input).Some? && IsValidHttpUrl(parse(input).value) ==> r == parse(input)
    ensures !(parse(input).Some? && IsValidHttpUrl(parse(input).value)) ==>
              if parse(HttpsPrefix + input).Some? && IsValidHttpUrl(parse(HttpsPrefix + input).value)
              then r == parse(HttpsPrefix + input)
              else r.None?
  {
    var first := parse(input);
    if first.Some? && IsValidHttpUrl(first.value) then first
    else
      var httpsAttempt := parse(HttpsPrefix + input);
      if httpsAttempt.Some? && IsValidHttpUrl(httpsAttempt.value) then httpsAttempt
      else None
  }
}
