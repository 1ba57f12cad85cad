/**
 * The pure steps of trip creation in routes/triprouter.js: cleaning the
 * phone number, and the forecast window filter with its fallback to an
 * empty forecast when the weather lookup fails.
 */
module CreateHelpers {
  import opened Wrappers
  import opened Schema

  /** The characters `/[^\d+]/g` does not delete: an ASCII digit or '+'. */
  predicate IsPhoneChar(c: char)
  {
    '0' <= c <= '9' || c == '+'
  }

  /** `a` can be obtained from `b` by deleting characters. */
  predicate IsSubsequence(a: string, b: string)
    decreases |b|
  {
    a == [] || (b != [] && if a[0] == b[0] then IsSubsequence(a[1..], b[1..]) else IsSubsequence(a, b[1..]))
  }

  /**
   * `phoneNo.replace(/[^\d+]/g, '')`: every digit and '+' of the input is
   * kept, as often as it occurs there, and nothing else is.
   */
  function CleanPhone(s: string): (r: string)
    ensures |r| <= |s|
    ensures forall i :: 0 <= i < |r| ==> IsPhoneChar(r[i])
    ensures forall c :: IsPhoneChar(c) ==> multiset(r)[c] == multiset(s)[c]
  {
    if s == [] then []
    else
      assert s == [s[0]] + s[1..];
      var rest := CleanPhone(s[1..]);
      if IsPhoneChar(s[0]) then [s[0]] + rest else rest
  }

  /** The cleaned number is what remains of the input after deletions. */
  lemma {:induction false} CleanPhoneIsSubsequence(s: string)
    ensures IsSubsequence(CleanPhone(s), s)
  {
    if s != [] {
      CleanPhoneIsSubsequence(s[1..]);
      // A deleted character never matches the head of the cleaned rest,
      // which is a digit or '+', so the match moves on to s[1..].
      var rest := CleanPhone(s[1..]);
      assert rest != [] ==> IsPhoneChar(rest[0]);
    }
  }

  /** One weather description of an OpenWeather forecast item. */
  datatype WeatherDesc = WeatherDesc(description: string, icon: string)

  /** One item of the OpenWeather `list`, with `dt_txt` already parsed into `time`. */
  datatype WeatherItem = WeatherItem(dtTxt: string, time: Time, temp: int, weather: seq<WeatherDesc>)

  /** One entry of the trip's forecast. */
  datatype ForecastEntry = ForecastEntry(date: string, temp: int, description: string, icon: string)

  /** The items whose time lies in the closed window [start, end], in order. */
  function InWindow(items: seq<WeatherItem>, start: Time, end: Time): (r: seq<WeatherItem>)
    ensures |r| <= |items|
    ensures forall i :: 0 <= i < |r| ==> start <= r[i].time <= end
    ensures forall x :: x in r <==> x in items && start <= x.time <= end
  {
    if items == [] then []
    else
      var rest := InWindow(items[1..], start, end);
      assert items == [items[0]] + items[1..];
      if start <= items[0].time <= end then [items[0]] + rest else rest
  }

  /** The window filter keeps the order of the items and keeps each item in the window once. */
  lemma {:induction false} InWindowConcat(a: seq<WeatherItem>, b: seq<WeatherItem>, start: Time, end: Time)
    ensures InWindow(a + b, start, end) == InWindow(a, start, end) + InWindow(b, start, end)
  {
    if a != [] {
      assert (a + b)[1..] == a[1..] + b;
      InWindowConcat(a[1..], b, start, end);
    } else {
      assert a + b == b;
    }
  }

  /** A single item is kept exactly when its time lies in the window. */
  lemma InWindowSingle(x: WeatherItem, start: Time, end: Time)
    ensures InWindow([x], start, end) == if start <= x.time <= end then [x] else []
  {
    assert [x][1..] == [];
  }

  /**
   * The forecast kept for a trip. `None` stands for a lookup that failed;
   * an item in the window without a weather description makes
   * `item.weather[0]` throw. Either failure is caught and gives the empty
   * forecast. Otherwise every item in the window becomes one entry, in order.
   */
  function Forecast(response: Option<seq<WeatherItem>>, start: Time, end: Time): (r: seq<ForecastEntry>)
    ensures response.None? ==> r == []
    ensures response.Some? && (exists i :: 0 <= i < |InWindow(response.value, start, end)| && InWindow(response.value, start, end)[i].weather == []) ==> r == []
    ensures r != [] ==> response.Some? && |r| == |InWindow(response.value, start, end)|
    ensures response.Some? && (forall i :: 0 <= i < |InWindow(response.value, start, end)| ==> InWindow(response.value, start, end)[i].weather != []) ==>
      |r| == |InWindow(response.value, start, end)| &&
      forall i :: 0 <= i < |r| ==>
        var x := InWindow(response.value, start, end)[i];
        r[i] == ForecastEntry(x.dtTxt, x.temp, x.weather[0].description, x.weather[0].icon)
  {
    match response
    case None => []
    case Some(items) =>
      var w := InWindow(items, start, end);
      if exists i :: 0 <= i < |w| && w[i].weather == [] then []
      else seq(|w|, i requires 0 <= i < |w| => ForecastEntry(w[i].dtTxt, w[i].temp, w[i].weather[0].description, w[i].weather[0].icon))
  }
}
