/** The location field: reading a latitude and longitude out of a Google Maps link (four
    link shapes tried in turn, each a regular expression taking the leftmost match), the
    link the field makes up from stored coordinates, and the confirm button's guard. */
module GoogleMaps {
  import opened Wrappers
  import opened Text

  // ---------------------------------------------------------------- coordinate tokens

  /** The first index at or after `j` that does not hold a digit (`\d*` taken greedily). */
  function DigitsEnd(s: string, j: nat): (e: nat)
    requires j <= |s|
    ensures j <= e <= |s|
    ensures e == |s| || !IsDigit(s[e])
    decreases |s| - j
  {
    if j < |s| && IsDigit(s[j]) then DigitsEnd(s, j + 1) else j
  }

  /** Everything `DigitsEnd` skips is a digit. */
  lemma {:induction false} DigitsEndDigits(s: string, j: nat)
    requires j <= |s|
    ensures forall k :: j <= k < DigitsEnd(s, j) ==> IsDigit(s[k])
    decreases |s| - j
  {
    if j < |s| && IsDigit(s[j]) {
      DigitsEndDigits(s, j + 1);
    }
  }

  /** Any run of digits from `j` ending at a non-digit (or the end) is the one found. */
  lemma {:induction false} DigitsEndIs(s: string, j: nat, e: nat)
    requires j <= e <= |s|
    requires forall k :: j <= k < e ==> IsDigit(s[k])
    requires e == |s| || !IsDigit(s[e])
    ensures DigitsEnd(s, j) == e
    decreases e - j
  {
    if j < e {
      DigitsEndIs(s, j + 1, e);
    }
  }

  /** Where the coordinate `-?\d+\.?\d*` that starts at `j` ends, taking every part as
      long as it can be; `None` when no digit follows the optional minus sign. */
  function ScanToken(s: string, j: nat): (e: Option<nat>)
    requires j <= |s|
    ensures e.Some? ==> j < e.value <= |s|
  {
    var k := if j < |s| && s[j] == '-' then j + 1 else j;
    var d := DigitsEnd(s, k);
    if d == k then None
    else if d < |s| && s[d] == '.' then Some(DigitsEnd(s, d + 1))
    else Some(d)
  }

  /** A coordinate starts at `j` exactly when a digit follows the optional minus sign, and
      it is read greedily: no digit follows where it ends. */
  lemma ScanTokenMeans(s: string, j: nat)
    requires j <= |s|
    ensures var k := if j < |s| && s[j] == '-' then j + 1 else j;
            ScanToken(s, j).Some? <==> k < |s| && IsDigit(s[k])
    ensures ScanToken(s, j).Some? ==> ScanToken(s, j).value == |s| || !IsDigit(s[ScanToken(s, j).value])
  {
  }

  /** `t` without its leading minus sign, if it has one. */
  function Unsigned(t: string): string
  {
    if 0 < |t| && t[0] == '-' then t[1..] else t
  }

  /** The grammar `-?\d+\.?\d*` stated on its own: after an optional minus sign, a digit
      first, then only digits and at most one dot. */
  predicate TokenGrammar(t: string)
  {
    var u := Unsigned(t);
    && 0 < |u| && IsDigit(u[0])
    && (forall i :: 0 <= i < |u| ==> IsDigit(u[i]) || u[i] == '.')
    && (forall a, b :: 0 <= a < b < |u| && u[a] == '.' ==> u[b] != '.')
  }

  /** Stripping the sign of a slice starting at `j` starts the slice where the scanner
      starts its digits. */
  lemma UnsignedOfSlice(s: string, j: nat, f: nat)
    requires j < f <= |s|
    ensures var k := if j < |s| && s[j] == '-' then j + 1 else j;
            k <= f && Unsigned(s[j..f]) == s[k..f]
  {
    assert s[j..f][0] == s[j];
    if s[j] == '-' {
      assert s[j..f][1..] == s[j + 1..f];
    }
  }

  /** The text the scanner reads follows the grammar. */
  lemma ScanTokenFollowsGrammar(s: string, j: nat)
    requires j <= |s| && ScanToken(s, j).Some?
    ensures TokenGrammar(s[j..ScanToken(s, j).value])
  {
    var e := ScanToken(s, j).value;
    var k := if j < |s| && s[j] == '-' then j + 1 else j;
    var d := DigitsEnd(s, k);
    UnsignedOfSlice(s, j, e);
    var u := s[k..e];
    DigitsEndDigits(s, k);
    assert forall i :: 0 <= i < |u| ==> u[i] == s[k + i];
    if d < |s| && s[d] == '.' {
      DigitsEndDigits(s, d + 1);
      assert forall i :: 0 <= i < |u| && u[i] == '.' ==> k + i == d;
    } else {
      assert e == d;
    }
  }

  /** Nothing longer than what the scanner reads follows the grammar. */
  lemma ScanTokenLongest(s: string, j: nat, f: nat)
    requires j <= |s| && ScanToken(s, j).Some? && ScanToken(s, j).value < f <= |s|
    ensures !TokenGrammar(s[j..f])
  {
    var e := ScanToken(s, j).value;
    var k := if j < |s| && s[j] == '-' then j + 1 else j;
    var d := DigitsEnd(s, k);
    UnsignedOfSlice(s, j, f);
    var u := s[k..f];
    assert u[e - k] == s[e] && !IsDigit(s[e]);
    if d < |s| && s[d] == '.' {
      assert u[d - k] == '.' && d < e;
      if s[e] == '.' {
        assert u[d - k] == '.' && u[e - k] == '.';
      } else {
        assert !(IsDigit(u[e - k]) || u[e - k] == '.');
      }
    }
  }

  /** Where the scanner finds no token, no text starting there follows the grammar. */
  lemma ScanTokenNoneMeans(s: string, j: nat, f: nat)
    requires j < f <= |s| && ScanToken(s, j).None?
    ensures !TokenGrammar(s[j..f])
  {
    var k := if j < |s| && s[j] == '-' then j + 1 else j;
    UnsignedOfSlice(s, j, f);
    if k < f {
      assert s[k..f][0] == s[k];
    }
  }

  /** The scanner reads exactly the longest text from `j` that follows the grammar
      `-?\d+\.?\d*`, and finds nothing exactly when no such text starts there. */
  lemma ScanTokenGrammar(s: string, j: nat, e: nat)
    requires j <= e <= |s|
    ensures ScanToken(s, j) == Some(e) <==>
              TokenGrammar(s[j..e]) && forall f :: e < f <= |s| ==> !TokenGrammar(s[j..f])
    ensures ScanToken(s, j).None? <==> forall f :: j < f <= |s| ==> !TokenGrammar(s[j..f])
  {
    var r := ScanToken(s, j);
    if r.Some? {
      ScanTokenFollowsGrammar(s, j);
      forall f | r.value < f <= |s| ensures !TokenGrammar(s[j..f]) {
        ScanTokenLongest(s, j, f);
      }
    } else {
      forall f | j < f <= |s| ensures !TokenGrammar(s[j..f]) {
        ScanTokenNoneMeans(s, j, f);
      }
      assert TokenGrammar(s[j..e]) ==> j < e by {
        assert s[j..j] == "";
      }
    }
  }

  /** A whole token, as the parser reads it, is exactly a text following the grammar. */
  lemma IsTokenGrammar(t: string)
    ensures IsToken(t) <==> TokenGrammar(t)
  {
    assert t[0..|t|] == t;
    ScanTokenGrammar(t, 0, |t|);
  }

  /** `t` is a whole coordinate token: an optional minus, digits, and an optional dot
      followed by digits. */
  predicate IsToken(t: string)
  {
    ScanToken(t, 0) == Some(|t|)
  }

  /** A token found inside a longer text, followed by something that cannot continue it,
      is read there in full. */
  lemma ScanTokenInside(s: string, i: nat, t: string)
    requires IsToken(t) && i + |t| <= |s| && s[i..i + |t|] == t
    requires i + |t| == |s| || (s[i + |t|] != '.' && !IsDigit(s[i + |t|]))
    ensures ScanToken(s, i) == Some(i + |t|)
  {
    var k := if 0 < |t| && t[0] == '-' then 1 else 0;
    assert 0 < |t| ==> s[i] == t[0];
    var d := DigitsEnd(t, k);
    DigitsEndInside(s, i, t, k);
    if d < |t| && t[d] == '.' {
      assert s[i + d] == t[d];
      DigitsEndInside(s, i, t, d + 1);
    }
  }

  /** A run of digits inside a slice ends at the same place in the whole text, when the
      slice ends the run or is followed by a non-digit. */
  lemma DigitsEndInside(s: string, i: nat, t: string, k: nat)
    requires i + |t| <= |s| && s[i..i + |t|] == t && k <= |t|
    requires DigitsEnd(t, k) < |t| || i + |t| == |s| || !IsDigit(s[i + |t|])
    ensures DigitsEnd(s, i + k) == i + DigitsEnd(t, k)
  {
    var d := DigitsEnd(t, k);
    DigitsEndDigits(t, k);
    assert forall m :: k <= m < d ==> s[i + m] == t[m];
    assert d < |t| ==> s[i + d] == t[d];
    DigitsEndIs(s, i + k, i + d);
  }

  // ---------------------------------------------------------------- the four link shapes

  /** The pair of coordinate texts a link yields, as matched (before `parseFloat`). */
  datatype Coords = Coords(lat: string, lng: string)

  /** The four shapes, in the order they are tried: `@lat,lng`, `place/…/@lat,lng`,
      `?q=lat,lng` or `&q=…`, and `?ll=lat,lng` or `&ll=…`. */
  datatype Shape = AtShape | PlaceShape | QueryShape | LatLngShape

  /** The two tokens `(-?\d+\.?\d*),(-?\d+\.?\d*)` starting at `j`. */
  function PairAt(s: string, j: nat): (c: Option<Coords>)
    requires j <= |s|
  {
    var first := ScanToken(s, j);
    if first.None? || first.value >= |s| || s[first.value] != ',' then None
    else
      var second := ScanToken(s, first.value + 1);
      if second.None? then None
      else Some(Coords(s[j..first.value], s[first.value + 1..second.value]))
  }

  /** The first `/` at or after `j`, if any. */
  function NextSlash(s: string, j: nat): (k: Option<nat>)
    requires j <= |s|
    ensures k.Some? ==> j <= k.value < |s| && s[k.value] == '/'
    ensures forall m :: j <= m < (if k.Some? then k.value else |s|) ==> s[m] != '/'
    decreases |s| - j
  {
    if j == |s| then None else if s[j] == '/' then Some(j) else NextSlash(s, j + 1)
  }

  /** Where the coordinate pair of the shape's match starting at index `p` begins, when
      everything before the pair matches. */
  function PairStart(s: string, shape: Shape, p: nat): (j: Option<nat>)
    requires p <= |s|
    ensures j.Some? ==> p < j.value <= |s|
  {
    match shape
    case AtShape =>
      if p < |s| && s[p] == '@' then Some(p + 1) else None
    case PlaceShape =>
      // `place\/[^\/]+\/@`: the run of non-slashes is taken whole, so the next slash closes it.
      if p + 6 <= |s| && s[p..p + 6] == "place/" then
        var slash := NextSlash(s, p + 6);
        if slash.None? || slash.value == p + 6 || slash.value + 1 >= |s| || s[slash.value + 1] != '@' then None
        else Some(slash.value + 2)
      else None
    case QueryShape =>
      if p + 3 <= |s| && (s[p] == '?' || s[p] == '&') && s[p + 1..p + 3] == "q=" then Some(p + 3) else None
    case LatLngShape =>
      if p + 4 <= |s| && (s[p] == '?' || s[p] == '&') && s[p + 1..p + 4] == "ll=" then Some(p + 4) else None
  }

  /** Whether the shape matches with its match starting at index `p`, and what it yields. */
  function MatchAt(s: string, shape: Shape, p: nat): Option<Coords>
    requires p <= |s|
  {
    var j := PairStart(s, shape, p);
    if j.None? then None else PairAt(s, j.value)
  }

  /** The shape's matcher over every start index of `s` (no match past the end). */
  function Matcher(s: string, shape: Shape): nat -> Option<Coords>
  {
    (p: nat) => if p <= |s| then MatchAt(s, shape, p) else None
  }

  /** `url.match(…)`: the match of `m` that starts leftmost in `from..n`. */
  function Search(n: nat, m: nat -> Option<Coords>, from: nat): (c: Option<Coords>)
    requires from <= n
    ensures c.None? <==> forall p :: from <= p <= n ==> m(p).None?
    decreases n - from
  {
    if m(from).Some? then m(from)
    else if from == n then None
    else Search(n, m, from + 1)
  }

  /** The match found is the one at the leftmost start that matches. */
  lemma {:induction false} SearchIsLeftmost(n: nat, m: nat -> Option<Coords>, from: nat) returns (p: nat)
    requires from <= n && Search(n, m, from).Some?
    ensures from <= p <= n && Search(n, m, from) == m(p)
    ensures forall q :: from <= q < p ==> m(q).None?
    decreases n - from
  {
    if m(from).Some? {
      p := from;
    } else {
      p := SearchIsLeftmost(n, m, from + 1);
    }
  }

  /** Starts where no match begins can be skipped. */
  lemma {:induction false} SearchSkips(n: nat, m: nat -> Option<Coords>, from: nat, to: nat)
    requires from <= to <= n
    requires forall p :: from <= p < to ==> m(p).None?
    ensures Search(n, m, from) == Search(n, m, to)
    decreases n - from
  {
    if from < to {
      SearchSkips(n, m, from + 1, to);
    }
  }

  /** The leftmost match of one shape in the whole link. */
  function Find(url: string, shape: Shape): Option<Coords>
  {
    Search(|url|, Matcher(url, shape), 0)
  }

  /** `extractLatLngFromMapsUrl`: no link, no coordinates; otherwise the shapes are tried in
      the order @, place, q, ll and the first that matches anywhere decides. */
  function Extract(url: string): (c: Option<Coords>)
    ensures url == "" ==> c.None?
    ensures url != "" && Find(url, AtShape).Some? ==> c == Find(url, AtShape)
    ensures url != "" && Find(url, AtShape).None? && Find(url, PlaceShape).Some? ==> c == Find(url, PlaceShape)
    ensures url != "" && Find(url, AtShape).None? && Find(url, PlaceShape).None? && Find(url, QueryShape).Some? ==>
              c == Find(url, QueryShape)
    ensures url != "" && Find(url, AtShape).None? && Find(url, PlaceShape).None? && Find(url, QueryShape).None? ==>
              c == Find(url, LatLngShape)
    ensures c.None? <==> (url == "" || (Find(url, AtShape).None? && Find(url, PlaceShape).None?
                                        && Find(url, QueryShape).None? && Find(url, LatLngShape).None?))
  {
    if url == "" then None
    else if Find(url, AtShape).Some? then Find(url, AtShape)
    else if Find(url, PlaceShape).Some? then Find(url, PlaceShape)
    else if Find(url, QueryShape).Some? then Find(url, QueryShape)
    else Find(url, LatLngShape)
  }

  /** Every `place/…/@lat,lng` match contains an `@lat,lng` match, so the second shape never
      decides: whenever it matches, the first one does too. */
  lemma PlaceImpliesAt(s: string)
    requires Find(s, PlaceShape).Some?
    ensures Find(s, AtShape).Some?
  {
    var m := Matcher(s, PlaceShape);
    var p := SearchIsLeftmost(|s|, m, 0);
    assert m(p) == MatchAt(s, PlaceShape, p);
    var q := PlaceContainsAt(s, p);
    assert Matcher(s, AtShape)(q) == MatchAt(s, AtShape, q);
  }

  /** The `@lat,lng` inside one `place/…` match. */
  lemma PlaceContainsAt(s: string, p: nat) returns (q: nat)
    requires p <= |s| && MatchAt(s, PlaceShape, p).Some?
    ensures q <= |s| && MatchAt(s, AtShape, q) == MatchAt(s, PlaceShape, p)
  {
    var slash := NextSlash(s, p + 6);
    q := slash.value + 1;
    assert PairStart(s, AtShape, q) == PairStart(s, PlaceShape, p);
  }

  lemma PlaceNeverDecides(url: string)
    ensures Find(url, PlaceShape).Some? ==> Extract(url) == Find(url, AtShape)
  {
    if Find(url, PlaceShape).Some? {
      PlaceImpliesAt(url);
    }
  }

  /** Each coordinate the parser yields is a whole token. */
  lemma PairAtYieldsTokens(s: string, j: nat)
    requires j <= |s| && PairAt(s, j).Some?
    ensures IsToken(PairAt(s, j).value.lat) && IsToken(PairAt(s, j).value.lng)
  {
    var first := ScanToken(s, j).value;
    var second := ScanToken(s, first + 1).value;
    TokenIsolated(s, j, first);
    TokenIsolated(s, first + 1, second);
  }

  /** A token read inside a text reads the same on its own. */
  lemma TokenIsolated(s: string, j: nat, e: nat)
    requires j <= |s| && ScanToken(s, j) == Some(e)
    ensures IsToken(s[j..e])
  {
    var t := s[j..e];
    assert forall k :: 0 <= k < |t| ==> t[k] == s[j + k];
    var k := if j < |s| && s[j] == '-' then j + 1 else j;
    var d := DigitsEnd(s, k);
    DigitsEndDigits(s, k);
    DigitsEndIs(t, k - j, if d < e then d - j else e - j);
    if d < |s| && s[d] == '.' {
      DigitsEndDigits(s, d + 1);
      DigitsEndIs(t, d + 1 - j, e - j);
    }
  }

  // ---------------------------------------------------------------- the made-up link

  const MapsPrefix: string := "https://www.google.com/maps/@"

  /** The link made from stored coordinates; `lat` and `lng` are their decimal renderings. */
  function MapsLink(lat: string, lng: string): string
  {
    MapsPrefix + lat + "," + lng + ",15z"
  }

  /** Two whole tokens around a comma, followed by something that cannot continue the
      second, are read as that pair. */
  lemma PairAtOf(s: string, j: nat, lat: string, lng: string)
    requires IsToken(lat) && IsToken(lng)
    requires j + |lat| + 1 + |lng| <= |s|
    requires s[j..j + |lat|] == lat && s[j + |lat|] == ','
    requires s[j + |lat| + 1..j + |lat| + 1 + |lng|] == lng
    requires j + |lat| + 1 + |lng| == |s| || (s[j + |lat| + 1 + |lng|] != '.' && !IsDigit(s[j + |lat| + 1 + |lng|]))
    ensures PairAt(s, j) == Some(Coords(lat, lng))
  {
    var e1, e2 := j + |lat|, j + |lat| + 1 + |lng|;
    FirstToken(s, j, lat);
    ScanTokenInside(s, e1 + 1, lng);
    PairAtFrom(s, j, e1, e2);
  }

  lemma FirstToken(s: string, j: nat, lat: string)
    requires IsToken(lat)
    requires j + |lat| < |s|
    requires s[j..j + |lat|] == lat && s[j + |lat|] == ','
    ensures ScanToken(s, j) == Some(j + |lat|)
  {
    assert s[j + |lat|] != '.' && !IsDigit(s[j + |lat|]);
    ScanTokenInside(s, j, lat);
  }

  /** The pair read where two tokens sit around a comma. */
  lemma PairAtFrom(s: string, j: nat, e1: nat, e2: nat)
    requires j <= |s| && ScanToken(s, j) == Some(e1) && e1 < |s| && s[e1] == ','
    requires ScanToken(s, e1 + 1) == Some(e2)
    ensures PairAt(s, j) == Some(Coords(s[j..e1], s[e1 + 1..e2]))
  {
  }

  /** Where the parts of a made-up link sit. */
  lemma MapsLinkLayout(lat: string, lng: string)
    ensures var s, n := MapsLink(lat, lng), |MapsPrefix|;
      && |s| == n + |lat| + 1 + |lng| + 4
      && (forall p :: 0 <= p < n - 1 ==> s[p] != '@')
      && s[n - 1] == '@'
      && s[n..n + |lat|] == lat && s[n + |lat|] == ','
      && s[n + |lat| + 1..n + |lat| + 1 + |lng|] == lng && s[n + |lat| + 1 + |lng|] == ','
  {
    var s, n := MapsLink(lat, lng), |MapsPrefix|;
    assert s[..n] == MapsPrefix;
    forall p | 0 <= p < n - 1 ensures s[p] != '@' {
      assert s[p] == MapsPrefix[p];
    }
  }

  /** A link made from coordinates written as plain decimals reads back as the same two
      coordinates. */
  lemma MapsLinkRoundTrip(lat: string, lng: string)
    requires IsToken(lat) && IsToken(lng)
    ensures Extract(MapsLink(lat, lng)) == Some(Coords(lat, lng))
  {
    var s := MapsLink(lat, lng);
    var n := |MapsPrefix|;
    var m := Matcher(s, AtShape);
    MapsLinkLayout(lat, lng);
    forall p: nat | 0 <= p < n - 1 ensures m(p).None? {
      assert s[p] != '@';
    }
    SearchSkips(|s|, m, 0, n - 1);
    PairAtOf(s, n, lat, lng);
    assert m(n - 1) == MatchAt(s, AtShape, n - 1);
  }

  /** `value`: the stored coordinates, when there are any. */
  datatype LatLng = LatLng(lat: real, lng: real)

  /** The effect run on mount and whenever the value or the link changes: with non-zero
      coordinates and no link, a link is made (`show` renders a number as JavaScript
      does); with both coordinates zero, the link is cleared; otherwise it stays. */
  function SyncLink(value: Option<LatLng>, mapsUrl: string, show: real -> string): (url: string)
    ensures value.Some? && value.value.lat != 0.0 && value.value.lng != 0.0 && mapsUrl == "" ==>
              url == MapsLink(show(value.value.lat), show(value.value.lng))
    ensures value.Some? && value.value.lat == 0.0 && value.value.lng == 0.0 ==> url == ""
    ensures url != mapsUrl ==> value.Some? && ((value.value.lat != 0.0 && value.value.lng != 0.0 && mapsUrl == "")
                                                || (value.value.lat == 0.0 && value.value.lng == 0.0))
  {
    if value.Some? && value.value.lat != 0.0 && value.value.lng != 0.0 && mapsUrl == "" then
      MapsLink(show(value.value.lat), show(value.value.lng))
    else if value.Some? && value.value.lat == 0.0 && value.value.lng == 0.0 then ""
    else mapsUrl
  }

  /** Running the effect again changes nothing, so it does not keep re-running itself. */
  lemma SyncLinkSettles(value: Option<LatLng>, mapsUrl: string, show: real -> string)
    ensures SyncLink(value, SyncLink(value, mapsUrl, show), show) == SyncLink(value, mapsUrl, show)
  {
    var once := SyncLink(value, mapsUrl, show);
    if value.Some? && value.value.lat != 0.0 && value.value.lng != 0.0 && mapsUrl == "" {
      assert once[..|MapsPrefix|] == MapsPrefix;
    }
  }

  /** A link made from stored coordinates whose renderings are plain decimals reads back as
      those renderings. */
  lemma SyncLinkReadsBack(value: LatLng, show: real -> string)
    requires value.lat != 0.0 && value.lng != 0.0
    requires IsToken(show(value.lat)) && IsToken(show(value.lng))
    ensures Extract(SyncLink(Some(value), "", show)) == Some(Coords(show(value.lat), show(value.lng)))
  {
    MapsLinkRoundTrip(show(value.lat), show(value.lng));
  }

  // ---------------------------------------------------------------- the input's state

  /** The field's state: the link text, the error shown, whether the link was edited
      since the last confirmation, and whether a confirmation is running. */
  datatype FieldState = FieldState(mapsUrl: string, error: Option<string>, hasChanged: bool, isConfirming: bool)

  /** `handleUrlChange`: the new text, no error, and marked as edited. */
  function UrlChanged(st: FieldState, url: string): (r: FieldState)
    ensures r == FieldState(url, None, true, st.isConfirming)
  {
    st.(mapsUrl := url, error := None, hasChanged := true)
  }

  /** How the `onConfirm` call ended: it resolved, or it rejected with an `Error` carrying a
      message, or with something else (`None`). */
  datatype ConfirmEnd = Resolved | Rejected(message: Option<string>)

  /** `handleConfirm`'s guard: a handler, a link and a composition are all needed. */
  predicate ConfirmAllowed(hasHandler: bool, mapsUrl: string, compositionId: Option<string>)
  {
    hasHandler && mapsUrl != "" && compositionId.Some? && compositionId.value != ""
  }

  /** `handleConfirm`: without the guard nothing happens; otherwise the link is handed to
      `onConfirm` and, once that ends, the edit mark is cleared on success or the error is
      shown on failure. */
  function Confirm(st: FieldState, hasHandler: bool, compositionId: Option<string>, outcome: ConfirmEnd): (r: FieldState)
    ensures !ConfirmAllowed(hasHandler, st.mapsUrl, compositionId) ==> r == st
    ensures ConfirmAllowed(hasHandler, st.mapsUrl, compositionId) ==>
              && r.mapsUrl == st.mapsUrl && !r.isConfirming
              && (outcome.Resolved? ==> r.error.None? && !r.hasChanged)
              && (outcome.Rejected? ==> r.hasChanged == st.hasChanged && r.error.Some?
                                        && r.error.value == outcome.message.GetOr("Failed to generate satellite image"))
  {
    if !ConfirmAllowed(hasHandler, st.mapsUrl, compositionId) then st
    else if outcome.Resolved? then st.(error := None, hasChanged := false, isConfirming := false)
    else st.(error := Some(outcome.message.GetOr("Failed to generate satellite image")), isConfirming := false)
  }
}
