/** The OpenWeather "One Call" request URL. The API token and the already
    formatted latitude and longitude are parameters. */
module Url {

  const BaseUrl := "https://api.openweathermap.org/data/3.0/onecall?"

  /** The query string: coordinates, imperial units, then the API key. */
  function QueryUrl(lat: string, long: string, token: string): string {
    BaseUrl + "&lat=" + lat + "&lon=" + long + "&units=imperial" + "&appid=" + token
  }

  /** `get_data_source_url`: grows the URL one query parameter at a time. */
  method GetDataSourceUrl(lat: string, long: string, token: string) returns (url: string)
    ensures url == QueryUrl(lat, long, token)
    ensures url[..|BaseUrl|] == BaseUrl
    ensures url[|url| - |token|..] == token
  {
    url := BaseUrl;
    url := url + "&lat=" + lat;
    url := url + "&lon=" + long;
    url := url + "&units=imperial";
    url := url + "&appid=" + token;
  }

  /** The latitude follows its parameter name right after the endpoint. */
  lemma QueryUrlLatitude(lat: string, long: string, token: string)
    ensures var url, at := QueryUrl(lat, long, token), |BaseUrl| + 5;
      url[..at] == BaseUrl + "&lat=" && url[at..at + |lat|] == lat
  {
    var tail := "&lon=" + long + "&units=imperial" + "&appid=" + token;
    assert QueryUrl(lat, long, token) == (BaseUrl + "&lat=") + lat + tail;
    MiddleOfConcat(BaseUrl + "&lat=", lat, tail);
  }

  /** The longitude follows its parameter name right after the latitude. */
  lemma QueryUrlLongitude(lat: string, long: string, token: string)
    ensures var url, at := QueryUrl(lat, long, token), |BaseUrl| + 5 + |lat| + 5;
      url[..at] == BaseUrl + "&lat=" + lat + "&lon=" && url[at..at + |long|] == long
  {
    var rest := "&units=imperial" + "&appid=" + token;
    assert QueryUrl(lat, long, token) == (BaseUrl + "&lat=" + lat + "&lon=") + long + rest;
    MiddleOfConcat(BaseUrl + "&lat=" + lat + "&lon=", long, rest);
  }

  /** The URL ends with the API key parameter. */
  lemma QueryUrlToken(lat: string, long: string, token: string)
    ensures var url := QueryUrl(lat, long, token);
      |url| == |BaseUrl| + |lat| + |long| + |token| + 32 &&
      url[|url| - |token| - 7..] == "&appid=" + token
  {
    var head := BaseUrl + "&lat=" + lat + "&lon=" + long + "&units=imperial";
    MiddleOfConcat(head, "&appid=" + token, []);
  }

  /** The middle part of a concatenation is found at its offset. */
  lemma MiddleOfConcat<T>(a: seq<T>, b: seq<T>, c: seq<T>)
    ensures (a + b + c)[|a|..|a| + |b|] == b
    ensures (a + b + c)[..|a|] == a
    ensures c == [] ==> (a + b + c)[|a|..] == b
  {
    assert (a + b + c)[|a|..|a| + |b|] == b;
  }

  /** For fixed coordinates, the URL determines the API key. */
  lemma QueryUrlDeterminesToken(lat: string, long: string, t1: string, t2: string)
    requires QueryUrl(lat, long, t1) == QueryUrl(lat, long, t2)
    ensures t1 == t2
  {
    var head := BaseUrl + "&lat=" + lat + "&lon=" + long + "&units=imperial" + "&appid=";
    assert QueryUrl(lat, long, t1) == head + t1 && QueryUrl(lat, long, t2) == head + t2;
    assert t1 == (head + t1)[|head|..];
    assert t2 == (head + t2)[|head|..];
  }
}
