// Multi-pin map links (src/bot/utils/map_links.py; src/bot/routers/currency.py
// holds an identical copy of both builders). The `:.4f` rendering of a
// coordinate is not modelled: it is the parameter `fmt`, a formatter from a
// column value to text.

module MapLinks {
  import opened Common
  import opened Records

  const GoogleEmpty := "https://maps.google.com/"
  const GoogleBase := "https://www.google.com/maps/dir/"
  const AppleEmpty := "http://maps.apple.com/"
  const AppleBase := "http://maps.apple.com/?"

  /** One office's "lat,lng" waypoint. */
  function Waypoint(o: Record, fmt: Value -> string): string
  {
    fmt(Col(o, Lat)) + "," + fmt(Col(o, Lng))
  }

  /** The waypoints of the offices, in order. */
  function Waypoints(offices: seq<Record>, fmt: Value -> string): (w: seq<string>)
    ensures |w| == |offices|
    ensures forall i :: 0 <= i < |offices| ==> w[i] == Waypoint(offices[i], fmt)
  {
    seq(|offices|, i requires 0 <= i < |offices| => Waypoint(offices[i], fmt))
  }

  /** The Apple pins "q=lat,lng", in order. */
  function Pins(offices: seq<Record>, fmt: Value -> string): (p: seq<string>)
    ensures |p| == |offices|
    ensures forall i :: 0 <= i < |offices| ==> p[i] == "q=" + Waypoint(offices[i], fmt)
  {
    seq(|offices|, i requires 0 <= i < |offices| => "q=" + Waypoint(offices[i], fmt))
  }

  /** `generate_google_maps_multi_pin_url`. */
  function GoogleMapsUrl(offices: seq<Record>, fmt: Value -> string): string
  {
    if offices == [] then GoogleEmpty else GoogleBase + Join(Waypoints(offices, fmt), "/")
  }

  /** `generate_apple_maps_multi_pin_url`. */
  function AppleMapsUrl(offices: seq<Record>, fmt: Value -> string): string
  {
    if offices == [] then AppleEmpty else AppleBase + Join(Pins(offices, fmt), "&")
  }

  /** No office gives the bare Google address; otherwise the "dir/" prefix followed by one waypoint per
      office, in order, which splitting on "/" gives back when the formatter writes no "/". */
  lemma GoogleWaypoints(offices: seq<Record>, fmt: Value -> string)
    requires forall v :: '/' !in fmt(v)
    ensures offices == [] ==> GoogleMapsUrl(offices, fmt) == "https://maps.google.com/"
    ensures offices != [] ==>
              var url := GoogleMapsUrl(offices, fmt);
              StartsWith(url, "https://www.google.com/maps/dir/")
              && Split(url[|GoogleBase|..], '/') == Waypoints(offices, fmt)
              && |Split(url[|GoogleBase|..], '/')| == |offices|
  {
    if offices != [] {
      var w := Waypoints(offices, fmt);
      forall i | 0 <= i < |w| ensures '/' !in w[i] {
        assert w[i] == fmt(Col(offices[i], Lat)) + "," + fmt(Col(offices[i], Lng));
        assert '/' !in fmt(Col(offices[i], Lat)) && '/' !in fmt(Col(offices[i], Lng));
      }
      SplitJoin(w, '/');
      var url := GoogleBase + Join(w, "/");
      assert url[..|GoogleBase|] == GoogleBase;
      assert url[|GoogleBase|..] == Join(w, "/");
    }
  }

  /** No office gives the bare Apple address; otherwise "?" followed by one "q=" pin per office, in
      order, which splitting on "&" gives back when the formatter writes no "&". */
  lemma ApplePins(offices: seq<Record>, fmt: Value -> string)
    requires forall v :: '&' !in fmt(v)
    ensures offices == [] ==> AppleMapsUrl(offices, fmt) == "http://maps.apple.com/"
    ensures offices != [] ==>
              var url := AppleMapsUrl(offices, fmt);
              StartsWith(url, "http://maps.apple.com/?")
              && Split(url[|AppleBase|..], '&') == Pins(offices, fmt)
              && |Split(url[|AppleBase|..], '&')| == |offices|
              && forall i :: 0 <= i < |offices| ==> StartsWith(Split(url[|AppleBase|..], '&')[i], "q=")
  {
    if offices != [] {
      var p := Pins(offices, fmt);
      forall i | 0 <= i < |p| ensures '&' !in p[i] {
        assert p[i] == "q=" + fmt(Col(offices[i], Lat)) + "," + fmt(Col(offices[i], Lng));
        assert '&' !in fmt(Col(offices[i], Lat)) && '&' !in fmt(Col(offices[i], Lng));
      }
      SplitJoin(p, '&');
      var url := AppleBase + Join(p, "&");
      assert url[..|AppleBase|] == AppleBase;
      assert url[|AppleBase|..] == Join(p, "&");
      forall i | 0 <= i < |offices| ensures StartsWith(p[i], "q=") {
        assert p[i][..2] == "q=";
      }
    }
  }
}
