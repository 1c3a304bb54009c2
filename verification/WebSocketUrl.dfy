/** Deriving the agent socket's URL from the control plane's API URL. */
module WebSocketUrl {
  datatype Url = Url(scheme: string, host: string, path: string, query: string, fragment: string)

  datatype Result = Ok(url: Url) | BadUrl | NoHost | UnsupportedScheme

  const API: string := "/api/v1"
  const AGENTS: string := "/agents/ws"
  const ENDPOINT: string := API + AGENTS

  predicate HasSuffix(s: string, suffix: string) {
    |suffix| <= |s| && s[|s| - |suffix|..] == suffix
  }

  lemma HasSuffixIff(s: string, suffix: string)
    ensures HasSuffix(s + suffix, suffix)
    ensures HasSuffix(s, suffix) ==> s == s[..|s| - |suffix|] + suffix
  {
  }

  lemma LastDiffers(s: string, suffix: string)
    requires s != "" && suffix != "" && s[|s| - 1] != suffix[|suffix| - 1]
    ensures !HasSuffix(s, suffix)
  {
    if |suffix| <= |s| {
      assert s[|s| - |suffix|..][|suffix| - 1] == s[|s| - 1];
    }
  }

  function TrimSlash(s: string): string {
    if HasSuffix(s, "/") then s[..|s| - 1] else s
  }

  /** The endpoint path of an API path. */
  function Extended(path: string): string {
    if HasSuffix(path, ENDPOINT) then path
    else if HasSuffix(path, API) then path + AGENTS
    else path + ENDPOINT
  }

  predicate Supported(scheme: string) {
    scheme == "https" || scheme == "http" || scheme == "wss" || scheme == "ws"
  }

  function SocketScheme(scheme: string): string {
    if scheme == "https" then "wss" else if scheme == "http" then "ws" else scheme
  }

  /** The socket URL of a parsed API URL with a host and a supported scheme. */
  function Socket(u: Url): Url {
    Url(SocketScheme(u.scheme), u.host, Extended(TrimSlash(u.path)), "", "")
  }

  /** The record the derivation works on: the first parse, or, when it found no
      scheme, the parse with https assumed. Parsing itself is a parameter. */
  function Parsed(parse: string -> Result, apiUrl: string): Result {
    var first := parse(apiUrl);
    if first.Ok? && first.url.scheme == "" then parse("https://" + apiUrl) else first
  }

  /** deriveWsURL. */
  method Derive(parse: string -> Result, apiUrl: string) returns (r: Result)
    ensures r.Ok? <==> Parsed(parse, apiUrl).Ok? && Parsed(parse, apiUrl).url.host != "" &&
                       Supported(Parsed(parse, apiUrl).url.scheme)
    ensures r.Ok? ==> r.url == Socket(Parsed(parse, apiUrl).url)
    ensures r.BadUrl? <==> !Parsed(parse, apiUrl).Ok?
    ensures r.NoHost? <==> Parsed(parse, apiUrl).Ok? && Parsed(parse, apiUrl).url.host == ""
  {
    var parsed := parse(apiUrl);
    if !parsed.Ok? {
      return BadUrl;
    }
    if parsed.url.scheme == "" {
      parsed := parse("https://" + apiUrl);
      if !parsed.Ok? {
        return BadUrl;
      }
    }
    var u := parsed.url;
    if u.host == "" {
      return NoHost;
    }
    match u.scheme {
      case "https" => u := u.(scheme := "wss");
      case "http" => u := u.(scheme := "ws");
      case "wss" =>
      case "ws" =>
      case _ => return UnsupportedScheme;
    }
    var path := TrimSlash(u.path);
    if HasSuffix(path, ENDPOINT) {
    } else if HasSuffix(path, API) {
      path := path + AGENTS;
    } else {
      path := path + ENDPOINT;
    }
    u := u.(path := path);
    u := u.(query := "");
    u := u.(fragment := "");
    return Ok(u);
  }

  /** Every derived path is a base followed by the endpoint, and the source path was
      that base with nothing, the API prefix or the endpoint behind it. */
  lemma EndpointReached(path: string)
    ensures HasSuffix(Extended(path), ENDPOINT)
    ensures var base := Extended(path)[..|Extended(path)| - |ENDPOINT|];
            path == base || path == base + API || path == base + ENDPOINT
  {
    HasSuffixIff(path, ENDPOINT);
    HasSuffixIff(path, API);
    if !HasSuffix(path, ENDPOINT) && HasSuffix(path, API) {
      var base := path[..|path| - |API|];
      assert path + AGENTS == base + ENDPOINT;
      HasSuffixIff(base, ENDPOINT);
    } else {
      HasSuffixIff(path, ENDPOINT);
    }
  }

  /** A derived URL is a fixed point: deriving from it again changes nothing. */
  lemma DerivingTwice(u: Url)
    requires Supported(u.scheme)
    ensures Supported(Socket(u).scheme) && Socket(Socket(u)) == Socket(u)
  {
    var path := Extended(TrimSlash(u.path));
    EndpointReached(TrimSlash(u.path));
    assert path[|path| - |ENDPOINT|..][|ENDPOINT| - 1] == 's';
    LastDiffers(path, "/");
  }

  /** The bare host, the API prefix and the full endpoint name the same socket exactly
      if the base does not already end in a slash, the prefix or the endpoint. */
  lemma SpellingsAgreeIff(u: Url, base: string)
    ensures Socket(u.(path := base)) == Socket(u.(path := base + API)) == Socket(u.(path := base + ENDPOINT))
       <==> !HasSuffix(base, "/") && !HasSuffix(base, API) && !HasSuffix(base, ENDPOINT)
  {
    Spelled(base);
    HasSuffixIff(base, "/");
    var bare := TrimSlash(base);
    if HasSuffix(base, "/") {
      assert |bare| < |base|;
      assert |Extended(bare)| <= |bare| + |ENDPOINT| < |base + ENDPOINT|;
    } else if HasSuffix(base, ENDPOINT) || HasSuffix(base, API) {
      assert |Extended(bare)| < |base + ENDPOINT|;
    }
  }

  lemma Spelled(base: string)
    ensures Extended(TrimSlash(base + API)) == base + ENDPOINT
    ensures Extended(TrimSlash(base + ENDPOINT)) == base + ENDPOINT
  {
    ApiSpelled(base);
    HasSuffixIff(base, ENDPOINT);
    assert (base + ENDPOINT)[|base + ENDPOINT| - 1] == 's';
  }

  lemma ApiSpelled(base: string)
    ensures Extended(TrimSlash(base + API)) == base + ENDPOINT
  {
    var path := base + API;
    HasSuffixIff(base, API);
    assert path[|path| - 1] == '1' && ENDPOINT[|ENDPOINT| - 1] == 's';
    LastDiffers(path, ENDPOINT);
    assert path + AGENTS == base + ENDPOINT;
  }
}
