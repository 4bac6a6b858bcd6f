/**
 * The link recogniser `get_youtube_url`: a message text is taken as a video
 * link when it begins with `https://`, contains `youtube.com/` somewhere and
 * parses as a URL. URL parsing belongs to a library and is a parameter here.
 */
module Recognizer {
  import opened Wrappers

  /** A parsed URL; what the parser keeps of the text is the parser's business. */
  datatype Url = Url(serialization: string)

  /** The URL parser (`Url::from_str`), an arbitrary total function into `Result`. */
  type UrlParser = string -> Result<Url, Failure>

  const HttpsPrefix: string := "https://"
  const HostMarker: string := "youtube.com/"

  /** `str::starts_with`. */
  predicate StartsWith(s: string, prefix: string) {
    |prefix| <= |s| && s[..|prefix|] == prefix
  }

  /** `pattern` occurs in `s` at position `i`. */
  ghost predicate OccursAt(s: string, pattern: string, i: int) {
    0 <= i && i + |pattern| <= |s| && s[i..i + |pattern|] == pattern
  }

  /** `str::contains`: try every start position from the left. */
  predicate Contains(s: string, pattern: string)
    decreases |s|
  {
    StartsWith(s, pattern) || (s != [] && Contains(s[1..], pattern))
  }

  /** The search finds the pattern exactly when it occurs somewhere. */
  lemma {:induction false} ContainsIffOccurs(s: string, pattern: string)
    ensures Contains(s, pattern) <==> exists i :: OccursAt(s, pattern, i)
    decreases |s|
  {
    if StartsWith(s, pattern) {
      assert OccursAt(s, pattern, 0);
    } else if s != [] {
      ContainsIffOccurs(s[1..], pattern);
      if Contains(s[1..], pattern) {
        var i :| OccursAt(s[1..], pattern, i);
        assert s[i + 1..i + 1 + |pattern|] == s[1..][i..i + |pattern|];
        assert OccursAt(s, pattern, i + 1);
      } else {
        forall i | OccursAt(s, pattern, i) && i > 0 ensures OccursAt(s[1..], pattern, i - 1) {
          assert s[1..][i - 1..i - 1 + |pattern|] == s[i..i + |pattern|];
        }
      }
    }
  }

  /**
   * `get_youtube_url`. The result is present exactly when there is a text,
   * it begins with `https://`, `youtube.com/` occurs in it and the whole text
   * parses; the URL is then the parse of the whole text. A parse error gives
   * no URL rather than an error.
   */
  function YoutubeUrl(text: Option<string>, parse: UrlParser): (r: Option<Url>)
    ensures text.None? ==> r.None?
    ensures r.Some? <==>
      text.Some? && StartsWith(text.value, HttpsPrefix)
      && (exists i :: OccursAt(text.value, HostMarker, i))
      && parse(text.value).Ok?
    ensures r.Some? ==> r.value == parse(text.value).value
  {
    match text
    case None => None
    case Some(t) =>
      ContainsIffOccurs(t, HostMarker);
      if StartsWith(t, HttpsPrefix) && Contains(t, HostMarker) then
        match parse(t)
        case Ok(url) => Some(url)
        case Err(_) => None
      else
        None
  }

  /** A text that passes both text checks but does not parse is not a link, and not an error. */
  lemma ParseFailureIsNoMatch(t: string, parse: UrlParser)
    requires StartsWith(t, HttpsPrefix) && Contains(t, HostMarker)
    requires parse(t).Err?
    ensures YoutubeUrl(Some(t), parse) == None
  {
  }

  /** A plain `http://` link is never recognised, whatever the parser says. */
  lemma {:induction false} PlainHttpIsNoMatch(parse: UrlParser)
    ensures YoutubeUrl(Some("check this out http://youtube.com/x"), parse) == None
  {
    var t := "check this out http://youtube.com/x";
    assert HttpsPrefix[0] == 'h' && t[0] == 'c';
    assert !StartsWith(t, HttpsPrefix) by {
      assert t[..|HttpsPrefix|][0] == t[0];
    }
  }

  /**
   * The host test is a substring search, not a check of the parsed host:
   * a link to another host that mentions `youtube.com/` in its query is
   * recognised as soon as it parses.
   */
  lemma {:induction false} ForeignHostAccepted(parse: UrlParser)
    requires parse("https://evil.com/?x=youtube.com/").Ok?
    ensures YoutubeUrl(Some("https://evil.com/?x=youtube.com/"), parse).Some?
  {
    var t := "https://evil.com/?x=youtube.com/";
    assert OccursAt(t, HostMarker, 20);
  }
}
