/** The interface of the `url` crate that the wrapper and the command line use.
    `Url::parse` itself is not modelled: callers receive it as a parameter. */
module Urls {
  import opened Wrappers

  /** A parsed URL, reduced to what the code inspects: `scheme()` and
      `host_str()`. */
  datatype Url = Url(scheme: string, host: Option<string>)

  /** `Url::parse`: `None` stands for a parse error. */
  type UrlParser = string -> Option<Url>
}
