/**
 * The strings the commands put into embed fields: the queue and playlist listings, cut so that
 * they fit the 1024-character limit of a field value.
 */
module Render {
  import opened Text
  import opened Tracks

  /** The truncation `get_tracks` and `get_single_track_queue` apply: a string longer than 1024
      characters keeps its first 1009 and gets the 12-character marker appended. */
  function Truncate(s: string): (r: string)
    ensures |r| <= 1024
    ensures |s| <= 1024 ==> r == s
    ensures |s| > 1024 ==> |r| == 1021 && r[..1009] == s[..1009] && r[1009..] == MoreMarker()
  {
    if |s| > 1024 then s[..1009] + MoreMarker() else s
  }

  function MoreMarker(): string { "**[+ More]**" }

  /** The stripped titles of a list, in order. */
  function StrippedTitles<T>(q: seq<T>, title: T -> string): (r: seq<string>)
    ensures |r| == |q| && forall i :: 0 <= i < |q| ==> r[i] == Strip(title(q[i]))
  {
    if q == [] then [] else [Strip(title(q[0]))] + StrippedTitles(q[1..], title)
  }

  /** `get_tracks` on the queue (5-tuples) and, through its `ValueError` fallback, on a playlist
      (pairs): the stripped titles joined by ", ", truncated. */
  function GetTracks<T>(q: seq<T>, title: T -> string): string {
    Truncate(Join(StrippedTitles(q, title), ", "))
  }

  /** `get_single_track_queue`: the titles joined as they are, truncated the same way. */
  function GetSingleTrackQueue(titles: seq<string>): string {
    Truncate(Join(titles, ", "))
  }

  /** `get_playlist_tracks`: the titles joined by ", "; from 1024 characters on, the first 1010
      are kept and a 13-character marker appended. */
  function GetPlaylistTracks(entries: seq<Entry>): (r: string)
    ensures |r| <= 1023
  {
    var s := Join(seq(|entries|, i requires 0 <= i < |entries| => entries[i].title), ", ");
    if |s| >= 1024 then s[..1010] + " **+More...**" else s
  }

  /** Every listing fits an embed field, a listing that already fits is shown whole, and a cut
      listing keeps its beginning. */
  lemma ListingsFit<T>(q: seq<T>, title: T -> string, titles: seq<string>, entries: seq<Entry>)
    ensures |GetTracks(q, title)| <= 1024 && |GetSingleTrackQueue(titles)| <= 1024
    ensures |Join(titles, ", ")| <= 1024 ==> GetSingleTrackQueue(titles) == Join(titles, ", ")
    ensures var s := Join(StrippedTitles(q, title), ", ");
      GetTracks(q, title)[..Min(|s|, 1009)] == s[..Min(|s|, 1009)]
    ensures var s := Join(seq(|entries|, i requires 0 <= i < |entries| => entries[i].title), ", ");
      && (|s| < 1024 ==> GetPlaylistTracks(entries) == s)
      && (|s| >= 1024 ==> GetPlaylistTracks(entries)[..1010] == s[..1010])
  {
  }

  /** A one-element list is shown as its (stripped) title. */
  lemma SingleListing<T>(x: T, title: T -> string)
    requires |title(x)| <= 1024
    ensures GetTracks([x], title) == Strip(title(x))
  {
  }
}
