/** The RainViewer radar playback (src/WeatherMap.js:127-134, 1624-1674,
    1931-1967): the frame list loaded from the listing, the frame index
    stepped by the animation interval with wrap-around, and the tile URL
    rebuilt from the current frame's path. */
module Radar {
  import opened Wrappers

  /** One entry of `data.radar.past`. */
  datatype Frame = Frame(time: int, path: string)

  /** The answer of the radar listing request: a failed request (logged and
      otherwise ignored) or the parsed body. */
  datatype Listing = ListingFailed | ListingBody(host: Option<string>, past: Option<seq<Frame>>)

  /** The host the index effect always uses. */
  const DefaultHost: string := "https://tilecache.rainviewer.com"

  /** What follows the frame path in a tile URL. */
  const TileSuffix: string := "/256/{z}/{x}/{y}/2/1_1.png"

  /** `data.host || 'https://tilecache.rainviewer.com'`: a missing or empty
      host falls back to the default one. */
  function ListingHost(host: Option<string>): (h: string)
    ensures h != ""
    ensures h == DefaultHost <==> host.None? || host.value == "" || host.value == DefaultHost
  {
    if host.Some? && host.value != "" then host.value else DefaultHost
  }

  /** `${host}${path}/256/{z}/{x}/{y}/2/1_1.png` */
  function TileUrl(host: string, path: string): string {
    host + path + TileSuffix
  }

  /** A tile URL starts with its host and ends with the fixed suffix. */
  lemma TileUrlShape(host: string, path: string)
    ensures |TileUrl(host, path)| == |host| + |path| + |TileSuffix|
    ensures TileUrl(host, path)[..|host|] == host
    ensures TileUrl(host, path)[|host| + |path|..] == TileSuffix
    ensures TileUrl(host, path)[|host|..|host| + |path|] == path
  {
    var u := TileUrl(host, path);
    assert u == host + (path + TileSuffix);
    assert u[..|host|] == host;
    assert u[|host|..] == path + TileSuffix;
    assert u[|host|..][..|path|] == path;
    assert u[|host|..][|path|..] == TileSuffix;
  }

  /** Different frames of one host give different tile URLs. */
  lemma TileUrlInjective(host: string, p: string, q: string)
    requires TileUrl(host, p) == TileUrl(host, q)
    ensures p == q
  {
    TileUrlShape(host, p);
    TileUrlShape(host, q);
  }

  /** The interval's updater `prev => prev + 1 >= length ? 0 : prev + 1`. */
  function Advance(i: int, n: nat): (j: int)
    ensures n > 0 && -1 <= i < n ==> 0 <= j < n
    ensures 0 <= i < n ==> j == (i + 1) % n
  {
    if i + 1 >= n then 0 else i + 1
  }

  /** The index after `m` interval ticks. */
  function Ticks(i: int, m: nat, n: nat): int {
    if m == 0 then i else Advance(Ticks(i, m - 1, n), n)
  }

  /** From a valid frame, `m` ticks move `m` frames forward, modulo the
      number of frames. */
  lemma {:induction false} TicksAreModular(i: int, m: nat, n: nat)
    requires 0 <= i < n
    ensures Ticks(i, m, n) == (i + m) % n
  {
    if m > 0 {
      TicksAreModular(i, m - 1, n);
      ModSucc(i + m - 1, n);
    }
  }

  lemma ModSucc(a: nat, n: nat)
    requires n > 0
    ensures ((a % n) + 1) % n == (a + 1) % n
  {
    var k, r := a / n, a % n;
    assert a == k * n + r;
    if r + 1 < n {
      ModUnique(a + 1, n, k, r + 1);
      ModUnique(r + 1, n, 0, r + 1);
    } else {
      assert a + 1 == (k + 1) * n;
      ModUnique(a + 1, n, k + 1, 0);
      ModUnique(r + 1, n, 1, 0);
    }
  }

  /** The remainder is the unique value in `[0, n)` that differs from `x`
      by a multiple of `n`. */
  lemma ModUnique(x: int, n: int, k: int, r: int)
    requires n > 0 && 0 <= r < n && x == k * n + r
    ensures x % n == r
  {
    var q := x / n;
    var d := q - k;
    assert d * n == q * n - k * n;
    assert d * n == r - x % n;
    if d > 0 {
      MulAtLeast(d, n);
    } else if d < 0 {
      MulAtLeast(-d, n);
    }
  }

  lemma {:induction false} MulAtLeast(d: int, n: int)
    requires d >= 1 && n > 0
    ensures d * n >= n
    decreases d
  {
    if d > 1 {
      MulAtLeast(d - 1, n);
      assert d * n == (d - 1) * n + n;
    }
  }

  /** A full round of ticks comes back to the frame it started from. */
  lemma FullRoundReturns(i: int, n: nat)
    requires 0 <= i < n
    ensures Ticks(i, n, n) == i
  {
    TicksAreModular(i, n, n);
    assert (i + n) % n == i;
  }

  /** The radar state of the map page. */
  class RadarAnimator {
    var frames: seq<Frame>
    var index: int
    var playing: bool
    var tile: Option<string>
    var playSpeed: int

    /** The index is -1 (nothing loaded yet) or points at a frame. */
    ghost predicate Valid()
      reads this
    {
      index == -1 || 0 <= index < |frames|
    }

    /** The initial state: no frames, index -1, paused, no tile and a
        nominal speed of one second per frame. */
    constructor ()
      ensures Valid()
      ensures frames == [] && index == -1 && !playing && tile == None && playSpeed == 1000
    {
      frames := [];
      index := -1;
      playing := false;
      tile := None;
      playSpeed := 1000;
    }

    /** Turning the radar layer off drops the tile and stops playback; the
        frames and the index are kept. */
    method Hide()
      requires Valid()
      modifies this
      ensures Valid()
      ensures tile == None && !playing
      ensures frames == old(frames) && index == old(index) && playSpeed == old(playSpeed)
    {
      tile := None;
      playing := false;
    }

    /** The listing callback: with a non-empty `past`, the frames are
        replaced, the index goes to the latest frame and the tile is built
        from the listing's host. Anything else changes nothing. */
    method Load(listing: Listing)
      requires Valid()
      modifies this
      ensures Valid()
      ensures playing == old(playing) && playSpeed == old(playSpeed)
      ensures listing.ListingBody? && listing.past.Some? && |listing.past.value| > 0 ==>
                var past := listing.past.value;
                frames == past && index == |past| - 1 &&
                tile == Some(TileUrl(ListingHost(listing.host), past[|past| - 1].path))
      ensures !(listing.ListingBody? && listing.past.Some? && |listing.past.value| > 0) ==>
                frames == old(frames) && index == old(index) && tile == old(tile)
    {
      if listing.ListingBody? && listing.past.Some? && |listing.past.value| > 0 {
        var past := listing.past.value;
        frames := past;
        index := |past| - 1;
        var latest := past[|past| - 1];
        var host := if listing.host.Some? && listing.host.value != "" then listing.host.value else DefaultHost;
        tile := Some(host + latest.path + TileSuffix);
      }
    }

    /** The effect on the index and the frames: with a frame selected, the
        tile is rebuilt from its path and the hard-coded host. */
    method SyncTile()
      requires Valid()
      modifies this
      ensures Valid()
      ensures frames == old(frames) && index == old(index) && playing == old(playing) && playSpeed == old(playSpeed)
      ensures index >= 0 && |frames| > 0 ==> tile == Some(TileUrl(DefaultHost, frames[index].path))
      ensures !(index >= 0 && |frames| > 0) ==> tile == old(tile)
    {
      if index >= 0 && |frames| > 0 {
        var item := frames[index];
        tile := Some(DefaultHost + item.path + TileSuffix);
      }
    }

    /** Turning the layer on: the listing callback, then the index effect
        that its new frames trigger. With frames loaded the tile ends on the
        latest frame under the hard-coded host, whatever host the listing
        named. A failed or empty listing is only logged. */
    method Show(listing: Listing)
      requires Valid()
      modifies this
      ensures Valid()
      ensures listing.ListingBody? && listing.past.Some? && |listing.past.value| > 0 ==>
                var past := listing.past.value;
                frames == past && index == |past| - 1 &&
                tile == Some(TileUrl(DefaultHost, past[|past| - 1].path))
      ensures !(listing.ListingBody? && listing.past.Some? && |listing.past.value| > 0) ==>
                frames == old(frames) && index == old(index) && tile == old(tile)
      ensures playing == old(playing) && playSpeed == old(playSpeed)
    {
      Load(listing);
      if listing.ListingBody? && listing.past.Some? && |listing.past.value| > 0 {
        SyncTile();
      }
    }

    /** One firing of the 500 ms interval, which exists only while playing
        with frames loaded. React keeps the state when the updater returns the
        index it was given (a single frame), and the index effect then does
        not run, so the tile is rebuilt only when the index moved. */
    method Tick()
      requires Valid()
      modifies this
      ensures Valid()
      ensures frames == old(frames) && playing == old(playing) && playSpeed == old(playSpeed)
      ensures playing && |frames| > 0 ==> index == Advance(old(index), |frames|)
      ensures playing && |frames| > 0 && index != old(index) ==>
                tile == Some(TileUrl(DefaultHost, frames[index].path))
      ensures !(playing && |frames| > 0) || index == old(index) ==> index == old(index) && tile == old(tile)
    {
      if playing && |frames| > 0 {
        var prev := index;
        var next := prev + 1;
        index := if next >= |frames| then 0 else next;
        if index != prev {
          SyncTile();
        }
      }
    }

    /** The play/pause button. */
    method TogglePlay()
      requires Valid()
      modifies this
      ensures Valid()
      ensures playing == !old(playing)
      ensures frames == old(frames) && index == old(index) && tile == old(tile) && playSpeed == old(playSpeed)
    {
      playing := !playing;
    }

    /** The return-to-start button, shown only when frames are loaded: it
        pauses and goes to the first frame. The index effect shows that frame
        only when the index was not already 0; otherwise the tile stays as it
        was (after the layer was hidden and shown again without a new listing,
        it stays empty). */
    method Reset()
      requires Valid() && |frames| > 0
      modifies this
      ensures Valid()
      ensures !playing && index == 0
      ensures old(index) != 0 ==> tile == Some(TileUrl(DefaultHost, frames[0].path))
      ensures old(index) == 0 ==> tile == old(tile)
      ensures frames == old(frames) && playSpeed == old(playSpeed)
    {
      var prev := index;
      playing := false;
      index := 0;
      if index != prev {
        SyncTile();
      }
    }

    /** The speed selector. The interval does not read the speed, so
        nothing else of the playback changes. */
    method SetPlaySpeed(ms: int)
      requires Valid()
      modifies this
      ensures Valid()
      ensures playSpeed == ms
      ensures frames == old(frames) && index == old(index) && playing == old(playing) && tile == old(tile)
    {
      playSpeed := ms;
    }
  }

  /** A layer hidden and shown again with a failed listing keeps the old
      frames at index 0, so reset does not move the index, the index effect
      does not run and no tile comes back. */
  method ReshownWithoutListingKeepsNoTile(f: Frame) returns (t: Option<string>)
    ensures t == None
  {
    var r := new RadarAnimator();
    r.Show(ListingBody(None, Some([f])));
    r.Reset();
    r.Hide();
    r.Show(ListingFailed);
    r.Reset();
    t := r.tile;
  }
}
