/** `extractBase64Image`: the route's recogniser for `data:image/<letters>;base64,<data>`,
    a pattern modelled on the `data:` URLs of section 2 of RFC 2397 but wider than
    them in two ways: the subtype may be empty, and the data may hold spaces and
    non-ASCII characters. The regular expression of `extractBase64Image` is written out as a
    prefix test, a scan over ASCII letters, a second literal and a check that the
    rest holds no line terminator (a JavaScript `.` matches anything else, and the
    pattern is anchored at both ends without the multiline flag). */
module DataUrl {
  import opened Wrappers
  import opened JsString

  const ImagePrefix: string := "data:image/"
  const Base64Marker: string := ";base64,"

  /** What the route learns from a well-formed image payload: the media subtype and
      the still-encoded base64 data, both copied out of the URL unchanged. */
  datatype DecodedImage = DecodedImage(subtype: string, data: string)

  /** The value `extractBase64Image` throws: a plain `Error` whose message is
      `"Invalid data URL"` and which has no `status` property. */
  datatype InvalidDataUrl = InvalidDataUrl

  const InvalidDataUrlMessage: string := "Invalid data URL"

  predicate IsAsciiLetter(c: char) {
    'a' <= c <= 'z' || 'A' <= c <= 'Z'
  }

  predicate AllAsciiLetters(t: string) {
    forall i :: 0 <= i < |t| ==> IsAsciiLetter(t[i])
  }

  predicate NoLineTerminator(d: string) {
    forall i :: 0 <= i < |d| ==> !IsLineTerminator(d[i])
  }

  /** The URL that carries subtype `t` and payload `d`. */
  function ImageDataUrl(t: string, d: string): string {
    ImagePrefix + t + Base64Marker + d
  }

  /** The pair `(t, d)` is one the pattern `([a-zA-Z]*)` / `(.*)` can capture. */
  predicate IsCapture(t: string, d: string) {
    AllAsciiLetters(t) && NoLineTerminator(d)
  }

  /** The URL has the accepted shape for some captures. */
  ghost predicate IsImageDataUrl(url: string) {
    exists t, d :: IsCapture(t, d) && url == ImageDataUrl(t, d)
  }

  /** The length of the longest run of ASCII letters at the start of `s`
      (the greedy `[a-zA-Z]*`). */
  function LetterRun(s: string): (n: nat)
    ensures n <= |s|
    ensures forall i :: 0 <= i < n ==> IsAsciiLetter(s[i])
    ensures n < |s| ==> !IsAsciiLetter(s[n])
  {
    if s != [] && IsAsciiLetter(s[0]) then
      var m := LetterRun(s[1..]);
      1 + m
    else 0
  }

  /** `extractBase64Image(url)`: either the two captures or the thrown error. */
  function ExtractBase64Image(url: string): (r: Result<DecodedImage, InvalidDataUrl>)
    ensures r.Ok? ==> IsCapture(r.value.subtype, r.value.data)
                      && url == ImageDataUrl(r.value.subtype, r.value.data)
  {
    if !(ImagePrefix <= url) then Err(InvalidDataUrl)
    else
      var rest := url[|ImagePrefix|..];
      var n := LetterRun(rest);
      var after := rest[n..];
      if !(Base64Marker <= after) then Err(InvalidDataUrl)
      else
        var data := after[|Base64Marker|..];
        if !NoLineTerminator(data) then Err(InvalidDataUrl)
        else
          var subtype := rest[..n];
          assert forall i :: 0 <= i < n ==> subtype[i] == rest[i];
          assert url == ImagePrefix + rest;
          assert rest == subtype + after;
          assert after == Base64Marker + data;
          ImageDataUrlParts(url, subtype, data, rest, after);
          Ok(DecodedImage(subtype, data))
  }

  lemma ImageDataUrlParts(url: string, t: string, d: string, rest: string, after: string)
    requires url == ImagePrefix + rest && rest == t + after && after == Base64Marker + d
    ensures url == ImageDataUrl(t, d)
  {
    calc {
      url;
      ImagePrefix + (t + (Base64Marker + d));
      { assert t + (Base64Marker + d) == (t + Base64Marker) + d; }
      ImagePrefix + ((t + Base64Marker) + d);
      ImagePrefix + t + Base64Marker + d;
    }
  }

  /** The greedy letter scan over letters `t` followed by nothing or by a
      non-letter stops exactly at the end of `t`. */
  lemma LetterRunStops(t: string, s: string)
    requires AllAsciiLetters(t)
    requires s == [] || !IsAsciiLetter(s[0])
    ensures LetterRun(t + s) == |t|
  {
    var u := t + s;
    assert forall i :: 0 <= i < |t| ==> IsAsciiLetter(u[i]);
    if s != [] {
      assert u[|t|] == s[0];
    }
  }

  /** On a URL of the accepted shape the decoder gives back the captures `t` and
      `d` unchanged, unless `d` holds a line terminator, in which case it throws. */
  lemma ExtractImageDataUrl(t: string, d: string)
    requires AllAsciiLetters(t)
    ensures ExtractBase64Image(ImageDataUrl(t, d))
            == if NoLineTerminator(d) then Ok(DecodedImage(t, d)) else Err(InvalidDataUrl)
  {
    var url := ImageDataUrl(t, d);
    var rest := url[|ImagePrefix|..];
    assert rest == t + (Base64Marker + d);
    LetterRunStops(t, Base64Marker + d);
    assert rest[..|t|] == t;
    assert rest[|t|..] == Base64Marker + d;
    assert (Base64Marker + d)[|Base64Marker|..] == d;
  }

  /** Round trip: the URL built from any capturable `(t, d)` is accepted and yields
      exactly `t` and `d` back. */
  lemma ExtractRoundTrip(t: string, d: string)
    requires IsCapture(t, d)
    ensures ExtractBase64Image(ImageDataUrl(t, d)) == Ok(DecodedImage(t, d))
  {
    ExtractImageDataUrl(t, d);
  }

  /** The decoder accepts exactly the URLs of the accepted shape; every other string
      is rejected. */
  lemma ExtractAcceptsExactly(url: string)
    ensures ExtractBase64Image(url).Ok? <==> IsImageDataUrl(url)
  {
    if IsImageDataUrl(url) {
      var t, d :| IsCapture(t, d) && url == ImageDataUrl(t, d);
      ExtractRoundTrip(t, d);
    }
    if ExtractBase64Image(url).Ok? {
      var v := ExtractBase64Image(url).value;
      assert IsCapture(v.subtype, v.data) && url == ImageDataUrl(v.subtype, v.data);
    }
  }

  /** A subtype with a character outside `[a-zA-Z]`, such as `svg+xml`, is rejected. */
  lemma RejectsNonLetterSubtype(d: string)
    ensures ExtractBase64Image(ImageDataUrl("svg+xml", d)).Err?
  {
    var url := ImageDataUrl("svg+xml", d);
    var rest := url[|ImagePrefix|..];
    assert rest == "svg" + ("+xml" + Base64Marker + d);
    LetterRunStops("svg", "+xml" + Base64Marker + d);
    assert rest[3..][0] == '+';
  }

  /** Any string that does not start with `data:image/` is rejected. */
  lemma RejectsMissingPrefix(url: string)
    requires !(ImagePrefix <= url)
    ensures ExtractBase64Image(url).Err?
  {
  }

  /** After `data:image/` and the longest run of letters `t`, anything that does not
      start with `;base64,` is rejected. */
  lemma RejectsMissingMarker(t: string, s: string)
    requires AllAsciiLetters(t)
    requires s == [] || !IsAsciiLetter(s[0])
    requires !(Base64Marker <= s)
    ensures ExtractBase64Image(ImagePrefix + t + s).Err?
  {
    var url := ImagePrefix + t + s;
    var rest := url[|ImagePrefix|..];
    assert rest == t + s;
    LetterRunStops(t, s);
    assert rest[|t|..] == s;
  }

  /** Base64 data that runs over a line break is rejected. */
  lemma RejectsLineBreakInData(t: string, d1: string, d2: string)
    requires AllAsciiLetters(t)
    ensures ExtractBase64Image(ImageDataUrl(t, d1 + "\n" + d2)).Err?
  {
    var d := d1 + "\n" + d2;
    assert IsLineTerminator(d[|d1|]);
    ExtractImageDataUrl(t, d);
  }
}
