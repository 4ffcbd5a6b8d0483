/**
 * The request half of the program: the four configuration strings and the
 * URL of the single GET request built from them. The HTTP exchange itself
 * is not part of this model.
 */
module Fetcher {
  import opened Wrappers

  /** The package-level settings `api`, `sid`, `units` and `key`, fixed before the run. */
  datatype Config = Config(api: string, sid: string, units: string, key: string)

  const StationIdParam: string := "?stationId="
  const UnitsParam: string := "&format=json&units="
  const KeyParam: string := "&apiKey="

  /**
   * The request URL: the API base followed by the station, format, units and
   * key query parameters, in that order. The values are not escaped.
   */
  function RequestUrl(cfg: Config): (url: string)
    ensures |url| == |cfg.api| + |cfg.sid| + |cfg.units| + |cfg.key| + 38
    ensures cfg.api <= url
    ensures StationIdParam <= url[|cfg.api|..]
    ensures url[|url| - |cfg.key|..] == cfg.key
  {
    cfg.api + Query(cfg.sid, cfg.units, cfg.key)
  }

  /** Everything after the base: "?stationId=<sid>&format=json&units=<units>&apiKey=<key>". */
  function Query(sid: string, units: string, key: string): string
  {
    StationIdParam + (sid + (UnitsParam + (units + (KeyParam + key))))
  }

  /** The position of the first `c` in `s`, if there is one. */
  function IndexOf(s: string, c: char): (r: Option<nat>)
    ensures r.Some? ==> r.value < |s| && s[r.value] == c && c !in s[..r.value]
    ensures r.None? ==> c !in s
  {
    if s == [] then None
    else if s[0] == c then Some(0)
    else match IndexOf(s[1..], c)
      case None => None
      case Some(i) => Some(i + 1)
  }

  /** A text that `c` does not occur in, followed by `c`, has its first `c` right after it. */
  lemma IndexOfAfter(a: string, b: string, c: char)
    requires c !in a && |b| > 0 && b[0] == c
    ensures IndexOf(a + b, c) == Some(|a|)
  {
    var s := a + b;
    assert s[|a|] == c;
    assert s[..|a|] == a;
  }

  /**
   * One query value: the text up to the first '&', which must begin the
   * separator `next`; also returns what follows the separator.
   */
  function Field(s: string, next: string): (r: Option<(string, string)>)
    ensures r.Some? ==> '&' !in r.value.0 && s == r.value.0 + (next + r.value.1)
  {
    match IndexOf(s, '&')
    case None => None
    case Some(j) =>
      if next <= s[j..] then
        assert s == s[..j] + (next + s[j + |next|..]);
        Some((s[..j], s[j + |next|..]))
      else None
  }

  lemma FieldOf(v: string, next: string, tail: string)
    requires '&' !in v && |next| > 0 && next[0] == '&'
    ensures Field(v + (next + tail), next) == Some((v, tail))
  {
    var s := v + (next + tail);
    IndexOfAfter(v, next + tail, '&');
    assert s[|v|..] == next + tail;
    assert s[..|v|] == v;
    assert s[|v| + |next|..] == tail;
  }

  /** Station, units and key out of the query string that follows the base. */
  function ParseQuery(q: string): (r: Option<(string, string, string)>)
    ensures r.Some? ==> q == Query(r.value.0, r.value.1, r.value.2)
  {
    if !(StationIdParam <= q) then None
    else match Field(q[|StationIdParam|..], UnitsParam)
      case None => None
      case Some((sid, rest)) =>
        match Field(rest, KeyParam)
        case None => None
        case Some((units, key)) =>
          assert q == StationIdParam + q[|StationIdParam|..];
          Some((sid, units, key))
  }

  /**
   * Reads the four settings back out of a request URL: the base ends at the
   * first '?', the station and the units each end at the next '&', and the
   * key is everything after "&apiKey=".
   */
  function ParseUrl(url: string): (r: Option<Config>)
    ensures r.Some? ==> RequestUrl(r.value) == url
  {
    match IndexOf(url, '?')
    case None => None
    case Some(i) =>
      match ParseQuery(url[i..])
      case None => None
      case Some((sid, units, key)) =>
        assert url == url[..i] + url[i..];
        Some(Config(url[..i], sid, units, key))
  }

  /**
   * The URL carries every setting recoverably, as long as the base holds no
   * '?' and the station and units hold no '&'.
   */
  lemma ParseRequestUrl(cfg: Config)
    requires '?' !in cfg.api && '&' !in cfg.sid && '&' !in cfg.units
    ensures ParseUrl(RequestUrl(cfg)) == Some(cfg)
  {
    var q := Query(cfg.sid, cfg.units, cfg.key);
    IndexOfAfter(cfg.api, q, '?');
    assert RequestUrl(cfg)[|cfg.api|..] == q && RequestUrl(cfg)[..|cfg.api|] == cfg.api;
    ParseQueryOf(cfg.sid, cfg.units, cfg.key);
  }

  lemma ParseQueryOf(sid: string, units: string, key: string)
    requires '&' !in sid && '&' !in units
    ensures ParseQuery(Query(sid, units, key)) == Some((sid, units, key))
  {
    var rest := units + (KeyParam + key);
    assert Query(sid, units, key)[|StationIdParam|..] == sid + (UnitsParam + rest);
    FieldOf(sid, UnitsParam, rest);
    FieldOf(units, KeyParam, key);
  }

  /** Under the same conditions, different settings never produce the same URL. */
  lemma RequestUrlInjective(c1: Config, c2: Config)
    requires '?' !in c1.api && '&' !in c1.sid && '&' !in c1.units
    requires '?' !in c2.api && '&' !in c2.sid && '&' !in c2.units
    requires RequestUrl(c1) == RequestUrl(c2)
    ensures c1 == c2
  {
    ParseRequestUrl(c1);
    ParseRequestUrl(c2);
  }

  /**
   * Without escaping, an '&' inside a value makes the URL ambiguous: moving
   * "&format=json&units=" and the text around it between the station and the
   * units gives different settings but the same URL.
   */
  lemma UnescapedValuesCollide(api: string, sid: string, u1: string, u2: string, key: string)
    ensures Config(api, sid + UnitsParam + u1, u2, key) != Config(api, sid, u1 + UnitsParam + u2, key)
    ensures RequestUrl(Config(api, sid + UnitsParam + u1, u2, key)) == RequestUrl(Config(api, sid, u1 + UnitsParam + u2, key))
  {
  }
}
