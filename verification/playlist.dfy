/**
 * The `Playlist` class of src/playlists/Playlist.ts and the songs it holds.
 */
module Playlists {
  import opened Js

  /** A song entry, known by the name and id it is created from. */
  datatype Song = Song(name: string, id: string)

  datatype Playlist = Playlist(
    title: string,
    author: string,
    description: string,
    image: string,
    songs: seq<Song>)

  /**
   * The constructor: every argument is stored as given, except that an
   * omitted (None) or empty description is stored as "".
   */
  function NewPlaylist(title: string, author: string, image: string, songs: seq<Song>,
                       description: Option<string>): (p: Playlist)
    ensures p.title == title && p.author == author
    ensures p.image == image && p.songs == songs
    ensures !Falsy(description) ==> p.description == description.value
    ensures p.description == "" <==> Falsy(description)
  {
    Playlist(title, author, if Falsy(description) then "" else description.value, image, songs)
  }

  /**
   * Defaulting never alters a description that is given: the stored one is
   * the argument when there is one, and "" otherwise.
   */
  lemma DescriptionIsGivenOrEmpty(title: string, author: string, image: string, songs: seq<Song>,
                                  description: Option<string>)
    ensures NewPlaylist(title, author, image, songs, description).description
            == if description.Some? then description.value else ""
  {
  }
}
