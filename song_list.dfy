/**
 * The song service: a module-level list of songs changed in place by four
 * handlers. `add_song` appends, `get_song` returns the first song with the
 * id, `update_song` overwrites four fields of that song, `delete_song`
 * removes it. Each lookup is the comprehension
 * `[song for song in video if song.id == song_id]` and takes its first entry.
 */
module SongList {
  import opened Wrappers

  /** One song, as the `Song` model declares it. */
  datatype Song = Song(id: int, name: string, author: string, description: Option<string>, genre: string)

  /** `[song for song in songs if song.id == id]`. */
  function Matching(songs: seq<Song>, id: int): (r: seq<Song>)
    ensures |r| <= |songs|
    ensures forall i :: 0 <= i < |r| ==> r[i].id == id
    decreases |songs|
  {
    if songs == [] then []
    else
      var n := |songs| - 1;
      Matching(songs[..n], id) + if songs[n].id == id then [songs[n]] else []
  }

  /** The comprehension holds exactly the songs of the list that have the id. */
  lemma {:induction false} MatchingMembers(songs: seq<Song>, id: int)
    ensures forall s :: s in Matching(songs, id) <==> s in songs && s.id == id
    decreases |songs|
  {
    if songs != [] {
      var n := |songs| - 1;
      MatchingMembers(songs[..n], id);
      assert songs == songs[..n] + [songs[n]];
    }
  }

  /** The position of the first song with the id, if any. */
  function FirstMatch(songs: seq<Song>, id: int): (k: Option<nat>)
    ensures k.None? <==> forall i :: 0 <= i < |songs| ==> songs[i].id != id
    ensures k.Some? ==> k.value < |songs| && songs[k.value].id == id &&
                        forall i :: 0 <= i < k.value ==> songs[i].id != id
    decreases |songs|
  {
    if songs == [] then None
    else
      var n := |songs| - 1;
      match FirstMatch(songs[..n], id)
      case Some(k) => Some(k)
      case None => if songs[n].id == id then Some(n) else None
  }

  /** The comprehension is empty exactly when nothing matches, and otherwise starts with the first match. */
  lemma {:induction false} MatchingHead(songs: seq<Song>, id: int)
    ensures Matching(songs, id) == [] <==> FirstMatch(songs, id).None?
    ensures Matching(songs, id) != [] ==> Matching(songs, id)[0] == songs[FirstMatch(songs, id).value]
    decreases |songs|
  {
    if songs != [] {
      var n := |songs| - 1;
      MatchingHead(songs[..n], id);
    }
  }

  /** Filtering distributes over concatenation. */
  lemma {:induction false} MatchingConcat(a: seq<Song>, b: seq<Song>, id: int)
    ensures Matching(a + b, id) == Matching(a, id) + Matching(b, id)
    decreases |b|
  {
    if b == [] {
      assert a + b == a;
    } else {
      var n := |b| - 1;
      MatchingConcat(a, b[..n], id);
      var tail := if b[n].id == id then [b[n]] else [];
      assert (a + b)[..|a + b| - 1] == a + b[..n] && (a + b)[|a + b| - 1] == b[n];
      assert Matching(a + b, id) == Matching(a + b[..n], id) + tail;
      assert Matching(b, id) == Matching(b[..n], id) + tail;
    }
  }

  /** The number of positions of `songs` holding a song with the id, counted from the front. */
  function Occurrences(songs: seq<Song>, id: int): nat
    decreases |songs|
  {
    if songs == [] then 0
    else (if songs[0].id == id then 1 else 0) + Occurrences(songs[1..], id)
  }

  /** The comprehension keeps one entry per position holding the id. */
  lemma {:induction false} MatchingCount(songs: seq<Song>, id: int)
    ensures |Matching(songs, id)| == Occurrences(songs, id)
    decreases |songs|
  {
    if songs != [] {
      var head := [songs[0]];
      assert songs == head + songs[1..];
      assert head[..0] == [];
      MatchingConcat(head, songs[1..], id);
      MatchingCount(songs[1..], id);
    }
  }

  /** `song.name, song.author, song.description, song.genre = new_song...`: the id stays. */
  function Retitled(song: Song, newSong: Song): (r: Song)
    ensures r.id == song.id && r.(id := newSong.id) == newSong
  {
    song.(name := newSong.name, author := newSong.author, description := newSong.description, genre := newSong.genre)
  }

  /** `songs.remove(x)`: drop the first element equal to `x`. */
  function RemoveFirst(songs: seq<Song>, x: Song): (r: seq<Song>)
    requires x in songs
    ensures |r| == |songs| - 1
    decreases |songs|
  {
    if songs[0] == x then songs[1..] else [songs[0]] + RemoveFirst(songs[1..], x)
  }

  /** Removing an element with no equal element before it cuts exactly that position out. */
  lemma {:induction false} RemoveFirstAt(songs: seq<Song>, k: nat)
    requires k < |songs|
    requires forall i :: 0 <= i < k ==> songs[i] != songs[k]
    ensures RemoveFirst(songs, songs[k]) == songs[..k] + songs[k + 1..]
    decreases k
  {
    if k > 0 {
      var tail := songs[1..];
      assert tail[k - 1] == songs[k];
      RemoveFirstAt(tail, k - 1);
      assert songs[..k] == [songs[0]] + tail[..k - 1];
      assert songs[k + 1..] == tail[k..];
    }
  }

  /**
   * `delete_song` removes exactly the first song with the id: every earlier
   * song has another id, so none of them equals it.
   */
  lemma RemoveFirstMatch(songs: seq<Song>, id: int)
    requires FirstMatch(songs, id).Some?
    ensures var k := FirstMatch(songs, id).value;
      RemoveFirst(songs, songs[k]) == songs[..k] + songs[k + 1..]
  {
    var k := FirstMatch(songs, id).value;
    RemoveFirstAt(songs, k);
  }

  /** When the id occurred once, no song has it after the delete, so `get_song` finds nothing. */
  lemma DeleteUnique(songs: seq<Song>, id: int)
    requires Occurrences(songs, id) == 1
    ensures FirstMatch(songs, id).Some?
    ensures var k := FirstMatch(songs, id).value;
      FirstMatch(RemoveFirst(songs, songs[k]), id).None?
  {
    MatchingCount(songs, id);
    MatchingHead(songs, id);
    var k := FirstMatch(songs, id).value;
    RemoveFirstMatch(songs, id);
    OnlyMatch(songs, k, id);
    MatchingHead(songs[..k] + songs[k + 1..], id);
  }

  /** A song with the id that is the only match: the songs around it have no match. */
  lemma OnlyMatch(songs: seq<Song>, k: nat, id: int)
    requires k < |songs| && songs[k].id == id && |Matching(songs, id)| == 1
    ensures Matching(songs[..k] + songs[k + 1..], id) == []
  {
    var pre, x, post := songs[..k], songs[k], songs[k + 1..];
    assert songs == pre + ([x] + post);
    assert Matching([x], id) == [x] by {
      assert [x][..0] == [];
    }
    MatchingConcat(pre, [x] + post, id);
    MatchingConcat([x], post, id);
    MatchingConcat(pre, post, id);
  }

  /** `update_song` keeps the id of the song it changes, so later lookups still find it first. */
  lemma UpdateKeepsLookup(songs: seq<Song>, k: nat, newSong: Song, id: int)
    requires k < |songs|
    ensures FirstMatch(songs[k := Retitled(songs[k], newSong)], id) == FirstMatch(songs, id)
  {
    var updated := songs[k := Retitled(songs[k], newSong)];
    assert forall i :: 0 <= i < |songs| ==> updated[i].id == songs[i].id;
    FirstMatchSameIds(songs, updated, id);
  }

  /** The first match depends on the ids alone. */
  lemma {:induction false} FirstMatchSameIds(a: seq<Song>, b: seq<Song>, id: int)
    requires |a| == |b| && forall i :: 0 <= i < |a| ==> a[i].id == b[i].id
    ensures FirstMatch(a, id) == FirstMatch(b, id)
    decreases |a|
  {
    if a != [] {
      var n := |a| - 1;
      FirstMatchSameIds(a[..n], b[..n], id);
    }
  }

  /** `add_song` does not check ids: a song added with a taken id is never the one a lookup finds. */
  lemma AddKeepsFirstMatch(songs: seq<Song>, song: Song, id: int)
    requires FirstMatch(songs, id).Some?
    ensures FirstMatch(songs + [song], id) == FirstMatch(songs, id)
  {
    assert (songs + [song])[..|songs|] == songs;
  }

  /** The module-level `video` list and the handlers that change it. */
  class Catalog {
    var video: seq<Song>

    /** The list as loaded at start-up. */
    constructor (songs: seq<Song>)
      ensures video == songs
    {
      video := songs;
    }

    /** `add_song`: append, without checking for a duplicate id, and return the song. */
    method AddSong(song: Song) returns (added: Song)
      modifies this
      ensures video == old(video) + [song] && added == song
    {
      video := video + [song];
      added := song;
    }

    /**
     * The comprehension of the three lookups, with the position of its first
     * entry (the element that `filtered_songs[0]` refers to).
     */
    method Matches(songId: int) returns (filtered: seq<Song>, first: Option<nat>)
      ensures filtered == Matching(video, songId)
      ensures first == FirstMatch(video, songId)
      ensures filtered == [] <==> first.None?
      ensures first.Some? ==> filtered[0] == video[first.value]
    {
      filtered, first := [], None;
      var i := 0;
      while i < |video|
        invariant 0 <= i <= |video|
        invariant filtered == Matching(video[..i], songId)
        invariant first == FirstMatch(video[..i], songId)
      {
        assert video[..i + 1][..i] == video[..i];
        if video[i].id == songId {
          filtered := filtered + [video[i]];
          if first.None? {
            first := Some(i);
          }
        }
        i := i + 1;
      }
      assert video[..i] == video;
      MatchingHead(video, songId);
    }

    /** `get_song`: the first song with the id, or None. */
    method GetSong(songId: int) returns (song: Option<Song>)
      ensures song.None? <==> forall i :: 0 <= i < |video| ==> video[i].id != songId
      ensures song.Some? ==> song.value.id == songId
      ensures song.Some? ==>
        (exists k :: 0 <= k < |video| && video[k] == song.value && forall i :: 0 <= i < k ==> video[i].id != songId)
    {
      var filtered, first := Matches(songId);
      if filtered == [] {
        song := None;
      } else {
        song := Some(filtered[0]);
      }
    }

    /**
     * `update_song`: without a match, report `updated: False` and change
     * nothing; otherwise overwrite name, author, description and genre of the
     * first match, keep its id, and return the new song as sent.
     */
    method UpdateSong(songId: int, newSong: Song) returns (updated: bool, song: Option<Song>)
      modifies this
      ensures updated == FirstMatch(old(video), songId).Some?
      ensures !updated ==> video == old(video) && song == None
      ensures updated ==> song == Some(newSong)
      ensures updated ==>
        var k := FirstMatch(old(video), songId).value;
        video == old(video)[k := Retitled(old(video)[k], newSong)]
    {
      var filtered, first := Matches(songId);
      if filtered == [] {
        return false, None;
      }
      var k := first.value;
      video := video[k := Retitled(video[k], newSong)];
      updated, song := true, Some(newSong);
    }

    /**
     * `delete_song`: without a match, report `deleted: False` and change
     * nothing; otherwise `video.remove(song)` on the first match and return it.
     */
    method DeleteSong(songId: int) returns (deleted: bool, song: Option<Song>)
      modifies this
      ensures deleted == FirstMatch(old(video), songId).Some?
      ensures !deleted ==> video == old(video) && song == None
      ensures deleted ==>
        var k := FirstMatch(old(video), songId).value;
        song == Some(old(video)[k]) && video == old(video)[..k] + old(video)[k + 1..]
    {
      var filtered, first := Matches(songId);
      if filtered == [] {
        return false, None;
      }
      var found := filtered[0];
      RemoveFirstMatch(video, songId);
      video := RemoveFirst(video, found);
      deleted, song := true, Some(found);
    }
  }
}
