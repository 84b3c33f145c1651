/**
 * `YouTubePlayer.Source.PlaylistID`: a playlist identifier or an explicit,
 * ordered list of video identifiers; how it is built from a raw string or a
 * list, how it is encoded for the player, and its comma-joined identity key.
 */
module PlaylistIdentifier {
  import opened StringComponents

  datatype PlaylistID = Playlist(playlist: string) | Videos(videos: seq<string>)

  /** What the single-value container receives: a scalar string or an array of strings. */
  datatype PlaylistWire = Scalar(value: string) | Array(values: seq<string>)

  const Comma: char := ','

  /** `init(_: [String])`: always the video list, for every length including zero and one. */
  function FromVideos(videos: seq<string>): (id: PlaylistID)
    ensures id.Videos? && id.videos == videos
  {
    Videos(videos)
  }

  /**
   * `init(_: String)`: a string with a comma becomes the list of its
   * comma-separated pieces (untrimmed); any other string, the empty one
   * included, is kept whole as a playlist identifier.
   */
  function FromString(playlist: string): (id: PlaylistID)
    ensures id.Videos? <==> Comma in playlist
    ensures id.Videos? ==> id.videos == Split(playlist, Comma) && |id.videos| >= 2
    ensures id.Videos? ==> forall i :: 0 <= i < |id.videos| ==> Comma !in id.videos[i]
    ensures id.Playlist? ==> id.playlist == playlist
  {
    var videoIds := Split(playlist, Comma);
    if |videoIds| > 1 then FromVideos(videoIds) else Playlist(playlist)
  }

  /** `init(stringLiteral:)`: a string literal builds what `init(_: String)` builds. */
  function FromStringLiteral(playlist: string): (id: PlaylistID)
    ensures id == FromString(playlist)
  {
    FromString(playlist)
  }

  /** `init(arrayLiteral:)`: an array literal builds what `init(_: [String])` builds. */
  function FromArrayLiteral(videos: seq<string>): (id: PlaylistID)
    ensures id == FromVideos(videos)
  {
    FromVideos(videos)
  }

  /** `encode(to:)`: a playlist as the scalar string, a video list as the array itself, never comma-joined. */
  function Encode(id: PlaylistID): (w: PlaylistWire)
    ensures w.Scalar? <==> id.Playlist?
    ensures id.Playlist? ==> w.value == id.playlist
    ensures id.Videos? ==> w.values == id.videos
  {
    match id
    case Playlist(playlist) => Scalar(playlist)
    case Videos(videos) => Array(videos)
  }

  /** `id`: the playlist string, or the video identifiers joined with commas. */
  function Id(id: PlaylistID): (key: string)
    ensures id.Playlist? ==> key == id.playlist
    ensures id.Videos? && |id.videos| >= 1 ==> id.videos[0] <= key
  {
    match id
    case Playlist(playlist) => playlist
    case Videos(videos) => Join(videos, Comma)
  }

  // ---------------------------------------------------------------------------
  // Properties
  // ---------------------------------------------------------------------------

  /** Building from a string and taking the identity key gives the string back, for every string. */
  lemma IdOfFromString(s: string)
    ensures Id(FromString(s)) == s
  {
    if Comma in s {
      JoinSplit(s, Comma);
    }
  }

  /** The number of video identifiers a string with commas yields is one more than its commas. */
  lemma FromStringVideoCount(s: string)
    requires Comma in s
    ensures |FromString(s).videos| == Count(s, Comma) + 1
  {
    SplitCount(s, Comma);
  }

  /** The key of n comma-free video identifiers, n at least one, holds n - 1 commas. */
  lemma IdCommaCount(x: PlaylistID)
    requires x.Videos? && |x.videos| >= 1
    requires forall i :: 0 <= i < |x.videos| ==> Comma !in x.videos[i]
    ensures Count(Id(x), Comma) == |x.videos| - 1
  {
    JoinCount(x.videos, Comma);
  }

  /**
   * Re-parsing the identity key gives the value back for a comma-free
   * playlist and for a list of two or more comma-free video identifiers.
   */
  lemma FromStringOfId(x: PlaylistID)
    requires x.Playlist? ==> Comma !in x.playlist
    requires x.Videos? ==> |x.videos| >= 2 && forall i :: 0 <= i < |x.videos| ==> Comma !in x.videos[i]
    ensures FromString(Id(x)) == x
  {
    if x.Videos? {
      SplitJoin(x.videos, Comma);
    }
  }

  /**
   * The identity key is lossy: a one-element video list and the playlist of
   * the same comma-free string share a key, and re-parsing that key gives the
   * playlist, not the list.
   */
  lemma SingleVideoIdCollides(v: string)
    requires Comma !in v
    ensures Id(FromVideos([v])) == Id(Playlist(v))
    ensures FromVideos([v]) != Playlist(v)
    ensures FromString(Id(FromVideos([v]))) == Playlist(v)
  {
  }

  /** An empty list stays an empty video list; it is not the playlist "" that the empty string builds. */
  lemma EmptyListIsNotEmptyPlaylist()
    ensures FromVideos([]) == Videos([])
    ensures FromString("") == Playlist("")
    ensures Id(FromVideos([])) == Id(FromString(""))
  {
  }

  /** Unlike the identity key, the wire encoding tells every two identifiers apart. */
  lemma EncodeInjective(a: PlaylistID, b: PlaylistID)
    ensures Encode(a) == Encode(b) <==> a == b
  {
  }

  /** A comma-separated string is sent as the array of its pieces and keyed by the string itself. */
  lemma ThreeVideosExample()
    ensures FromString("a,b,c") == Videos(["a", "b", "c"])
    ensures Id(FromString("a,b,c")) == "a,b,c"
    ensures Encode(FromString("a,b,c")) == Array(["a", "b", "c"])
  {
    var xs := ["a", "b", "c"];
    assert Join(xs, Comma) == "a,b,c";
    SplitJoin(xs, Comma);
  }
}
