/** Metadata of downloaded Apple Music files (`bot/providers/apple_metadata.py`): routing
    by extension, the fallback record, and where an embedded cover is written.  Tag
    parsing belongs to mutagen: an opened file is a `MediaFile` value, and opening a file,
    writing the cover and parsing a FLAC picture block are functions of a `Library`. */
module AppleMetadata {
  import opened Common
  import opened Strings
  import opened Encoding
  import opened Paths

  /** What mutagen exposes of an opened file. */
  datatype MediaFile = MediaFile(
    tags: map<string, seq<string>>,    // text tags, each a list of values
    numbers: map<string, seq<int>>,    // numeric tags ('width', 'height')
    length: int,                       // `int(info.length)`
    covr: Option<seq<seq<byte>>>,      // the 'covr' list, when the key is present
    pictures: Option<seq<seq<byte>>>,  // the `pictures` attribute, when the object has one
    blocks: Option<seq<string>>)       // the 'metadata_block_picture' values, when present

  /** `MP4(path)` and `mutagen.File(path)` (`None` when they raise or find nothing),
      whether the cover file can be opened for writing, and the picture type of a FLAC
      picture block (`None` when `Picture(data)` raises). */
  datatype Library = Library(openMp4: string -> Option<MediaFile>, openAny: string -> Option<MediaFile>,
                             writable: string -> bool, pictureType: seq<byte> -> Option<int>)

  /** The metadata dictionary.  Audio records have no width or height; video records
      have no album. */
  datatype Meta = Meta(title: string, artist: string, album: Option<string>, duration: int,
                       thumbnail: Option<string>, width: Option<int>, height: Option<int>)

  /** `default_metadata`: the file name without its extension and fixed placeholders. */
  function DefaultMetadata(p: string): (r: Meta)
    ensures '/' !in r.title && EndsWith(p, r.title + SplitExt(Basename(p)).1)
    ensures r.artist == "Unknown Artist" && r.album == Some("Unknown Album")
    ensures r.duration == 0 && r.thumbnail.None? && r.width.None? && r.height.None?
  {
    Meta(SplitExt(Basename(p)).0, "Unknown Artist", Some("Unknown Album"), 0, None, None, None)
  }

  /** The title of the fallback record for `dir/stem.ext` is `stem`. */
  lemma DefaultTitleOfJoin(dir: string, stem: string, ext: string)
    requires stem != "" && '/' !in stem && exists i :: 0 <= i < |stem| && stem[i] != '.'
    requires |ext| >= 1 && ext[0] == '.' && '.' !in ext[1..] && '/' !in ext
    ensures DefaultMetadata(Join(dir, stem + ext)).title == stem
  {
    assert '/' !in stem + ext by {
      forall j | 0 <= j < |stem + ext| ensures (stem + ext)[j] != '/' {
        if j >= |stem| {
          assert (stem + ext)[j] == ext[j - |stem|];
        }
      }
    }
    BasenameOfJoin(dir, stem + ext);
    assert RFind(stem, '/') == -1;
    SplitExtOfStem(stem, ext);
  }

  // ------------------------------------------------------------------ cover art

  /** `f"{os.path.splitext(file_path)[0]}.jpg"`. */
  function CoverPath(p: string): (r: string)
    ensures EndsWith(r, ".jpg") && StartsWith(r, SplitExt(p).0)
  {
    SplitExt(p).0 + ".jpg"
  }

  /** The cover sits beside the file: same stem, with '.jpg' as its extension (when the
      file name has a character other than '.'). */
  lemma CoverPathExt(p: string)
    requires HasNonDot(p, RFind(p, '/') + 1, |p|)
    ensures SplitExt(CoverPath(p)) == (SplitExt(p).0, ".jpg")
  {
    StemHasNonDot(p);
    JpgOfStem(SplitExt(p).0);
  }

  lemma JpgOfStem(stem: string)
    requires HasNonDot(stem, RFind(stem, '/') + 1, |stem|)
    ensures SplitExt(stem + ".jpg") == (stem, ".jpg")
  {
    var jpg := ".jpg";
    assert jpg[0] == '.' && '.' !in jpg[1..] && '/' !in jpg by {
      assert jpg[1..] == "jpg";
    }
    SplitExtOfStem(stem, jpg);
  }

  /** Splitting off an extension leaves a character other than '.' in the last
      component. */
  lemma StemHasNonDot(p: string)
    requires HasNonDot(p, RFind(p, '/') + 1, |p|)
    ensures var stem := SplitExt(p).0; HasNonDot(stem, RFind(stem, '/') + 1, |stem|)
  {
    var stem := SplitExt(p).0;
    var sep := RFind(p, '/');
    var dot := RFind(p, '.');
    if dot > sep && HasNonDot(p, sep + 1, dot) {
      assert stem == p[..dot];
      var i :| sep + 1 <= i < dot && p[i] != '.';
      assert stem[i] == p[i];
      RFindPrefix(p, dot, sep);
    }
  }

  /** The last '/' of a prefix that still contains it is the last '/' of the whole. */
  lemma RFindPrefix(p: string, n: nat, sep: int)
    requires n <= |p| && sep == RFind(p, '/') && sep < n
    ensures RFind(p[..n], '/') == sep
  {
    var q := p[..n];
    var r := RFind(q, '/');
    assert r >= 0 ==> p[r] == '/' by {
      if r >= 0 {
        assert q[r] == p[r];
      }
    }
    assert sep >= 0 ==> q[sep] == '/' by {
      if sep >= 0 {
        assert q[sep] == p[sep];
      }
    }
  }

  /** The bytes `base64.b64decode` takes from a text block, when it is ASCII. */
  function BlockPicture(block: string, lib: Library): Option<int>
  {
    if forall i :: 0 <= i < |block| ==> block[i] < 128 as char then
      match Base64Decode(Utf8Encode(block))
      case Err(_) => None
      case Ok(data) => lib.pictureType(data)
    else None
  }

  /** Whether some block holds a front cover (type 3) that can be written; a block that
      fails to decode or to write is skipped. */
  function BlocksCover(blocks: seq<string>, cover: string, lib: Library): (r: bool)
    ensures r ==> lib.writable(cover)
  {
    blocks != [] && ((BlockPicture(blocks[0], lib) == Some(3) && lib.writable(cover)) || BlocksCover(blocks[1..], cover, lib))
  }

  lemma {:induction false} BlocksCoverIff(blocks: seq<string>, cover: string, lib: Library)
    ensures BlocksCover(blocks, cover, lib) <==>
      (lib.writable(cover) && exists i :: 0 <= i < |blocks| && BlockPicture(blocks[i], lib) == Some(3))
  {
    if blocks != [] {
      BlocksCoverIff(blocks[1..], cover, lib);
      if lib.writable(cover) && BlockPicture(blocks[0], lib) != Some(3) {
        if exists i :: 0 <= i < |blocks| && BlockPicture(blocks[i], lib) == Some(3) {
          var i :| 0 <= i < |blocks| && BlockPicture(blocks[i], lib) == Some(3);
          assert blocks[1..][i - 1] == blocks[i];
        }
      }
      forall i | 0 <= i < |blocks[1..]| ensures blocks[1..][i] == blocks[i + 1] { }
    }
  }

  /** `extract_cover_art` as written: `base64` is not imported, so decoding a picture block
      raises a NameError that the bare `except` skips, and no block ever gives a cover. */
  function CoverArtAsWritten(m: MediaFile, p: string, lib: Library): Option<string>
  {
    if m.covr.Some? then
      if m.covr.value != [] && lib.writable(CoverPath(p)) then Some(CoverPath(p)) else None
    else if m.pictures.Some? && m.pictures.value != [] then
      if lib.writable(CoverPath(p)) then Some(CoverPath(p)) else None
    else None
  }

  /** `extract_cover_art` with `base64` available: the MP4 'covr' list, else the picture
      list, else the first front-cover picture block; `None` when nothing qualifies or the
      write fails. */
  function CoverArt(m: MediaFile, p: string, lib: Library): (r: Option<string>)
    ensures r.Some? ==> r.value == CoverPath(p) && lib.writable(CoverPath(p))
  {
    if m.covr.Some? then
      if m.covr.value != [] && lib.writable(CoverPath(p)) then Some(CoverPath(p)) else None
    else if m.pictures.Some? && m.pictures.value != [] then
      if lib.writable(CoverPath(p)) then Some(CoverPath(p)) else None
    else if m.blocks.Some? && BlocksCover(m.blocks.value, CoverPath(p), lib) then Some(CoverPath(p))
    else None
  }

  /** Without MP4 or ID3 pictures, a cover comes exactly from a writable front-cover
      block. */
  lemma CoverFromBlocks(m: MediaFile, p: string, lib: Library)
    requires m.covr.None? && (m.pictures.None? || m.pictures.value == [])
    ensures CoverArt(m, p, lib).Some? <==>
      (m.blocks.Some? && lib.writable(CoverPath(p))
       && exists i :: 0 <= i < |m.blocks.value| && BlockPicture(m.blocks.value[i], lib) == Some(3))
  {
    if m.blocks.Some? {
      BlocksCoverIff(m.blocks.value, CoverPath(p), lib);
    }
  }

  /** The two agree except on picture blocks, where the code as written finds nothing
      even when a block holds a writable front cover. */
  lemma FrontCoverBlockLostAsWritten(m: MediaFile, p: string, lib: Library)
    requires m.covr.None? && (m.pictures.None? || m.pictures.value == []) && m.blocks.Some?
    requires lib.writable(CoverPath(p))
    requires exists i :: 0 <= i < |m.blocks.value| && BlockPicture(m.blocks.value[i], lib) == Some(3)
    ensures CoverArtAsWritten(m, p, lib) == None
    ensures CoverArt(m, p, lib) == Some(CoverPath(p))
  {
    CoverFromBlocks(m, p, lib);
  }

  lemma CoverArtAgrees(m: MediaFile, p: string, lib: Library)
    requires m.covr.Some? || (m.pictures.Some? && m.pictures.value != []) || m.blocks.None?
    ensures CoverArtAsWritten(m, p, lib) == CoverArt(m, p, lib)
  {
  }

  // ------------------------------------------------------------------ records

  /** `media.get(key, [default])[0]`; `None` when the key holds an empty list (an
      IndexError). */
  function TagOr(m: MediaFile, key: string, default: string): (r: Option<string>)
    ensures key !in m.tags ==> r == Some(default)
    ensures key in m.tags ==> (r.Some? <==> m.tags[key] != []) && (r.Some? ==> r.value == m.tags[key][0])
  {
    if key in m.tags then (if m.tags[key] == [] then None else Some(m.tags[key][0])) else Some(default)
  }

  function NumberOr(m: MediaFile, key: string, default: int): (r: Option<int>)
    ensures key !in m.numbers ==> r == Some(default)
    ensures key in m.numbers ==> (r.Some? <==> m.numbers[key] != []) && (r.Some? ==> r.value == m.numbers[key][0])
  {
    if key in m.numbers then (if m.numbers[key] == [] then None else Some(m.numbers[key][0])) else Some(default)
  }

  /** The tag names of the MP4 atoms and of other formats. */
  const Mp4Keys: (string, string, string) := ("\U{A9}nam", "\U{A9}ART", "\U{A9}alb")
  const PlainKeys: (string, string, string) := ("title", "artist", "album")

  /** An audio record from the title, artist and album tags; any missing value raises
      and gives the fallback record. */
  function AudioRecord(m: MediaFile, p: string, keys: (string, string, string), thumbnail: Option<string>): Meta
  {
    var title := TagOr(m, keys.0, "Unknown");
    var artist := TagOr(m, keys.1, "Unknown Artist");
    var album := TagOr(m, keys.2, "Unknown Album");
    if title.Some? && artist.Some? && album.Some? then
      Meta(title.value, artist.value, album, m.length, thumbnail, None, None)
    else DefaultMetadata(p)
  }

  /** The branch for formats other than MP4: `mutagen.File`, and a cover only for objects
      that have a `pictures` attribute. */
  function GenericMetadata(p: string, lib: Library): Meta
  {
    match lib.openAny(p)
    case None => DefaultMetadata(p)
    case Some(m) => AudioRecord(m, p, PlainKeys, if m.pictures.Some? then CoverArt(m, p, lib) else None)
  }

  /** `extract_audio_metadata`. */
  function ExtractAudio(p: string, lib: Library): Meta
  {
    if EndsWith(p, ".m4a") then
      match lib.openMp4(p)
      case None => DefaultMetadata(p)
      case Some(m) => AudioRecord(m, p, Mp4Keys, CoverArt(m, p, lib))
    else GenericMetadata(p, lib)
  }

  predicate IsVideoPath(p: string)
  {
    EndsWith(p, ".mp4") || EndsWith(p, ".m4v") || EndsWith(p, ".mov")
  }

  /** `extract_video_metadata`: MP4 fields with 1920x1080 as the default size; anything
      that is not a video file gets the fallback record. */
  function ExtractVideo(p: string, lib: Library): Meta
  {
    if IsVideoPath(p) then
      match lib.openMp4(p)
      case None => DefaultMetadata(p)
      case Some(v) =>
        var title := TagOr(v, Mp4Keys.0, "Unknown");
        var artist := TagOr(v, Mp4Keys.1, "Unknown Artist");
        var width := NumberOr(v, "width", 1920);
        var height := NumberOr(v, "height", 1080);
        if title.Some? && artist.Some? && width.Some? && height.Some? then
          Meta(title.value, artist.value, None, v.length, CoverArt(v, p, lib), width, height)
        else DefaultMetadata(p)
    else DefaultMetadata(p)
  }

  /** `extract_apple_metadata`: routing by extension. */
  function ExtractApple(p: string, lib: Library): Meta
  {
    if EndsWith(p, ".m4a") then ExtractAudio(p, lib)
    else if IsVideoPath(p) then ExtractVideo(p, lib)
    else GenericMetadata(p, lib)
  }

  lemma LastChar(p: string, ext: string)
    requires ext != ""
    ensures EndsWith(p, ext) ==> p[|p| - 1] == ext[|ext| - 1]
  {
    if EndsWith(p, ext) {
      assert p[|p| - |ext|..][|ext| - 1] == p[|p| - 1];
    }
  }

  lemma NotBothExtensions(p: string)
    ensures EndsWith(p, ".m4a") ==> !IsVideoPath(p)
  {
    LastChar(p, ".m4a");
    LastChar(p, ".mp4");
    LastChar(p, ".m4v");
    LastChar(p, ".mov");
  }

  /** Videos go to the video extractor and everything else is handled as audio would be:
      '.m4a' by MP4 atoms, the rest by the generic branch. */
  lemma ExtractAppleDispatch(p: string, lib: Library)
    ensures ExtractApple(p, lib) == (if IsVideoPath(p) then ExtractVideo(p, lib) else ExtractAudio(p, lib))
    ensures !EndsWith(p, ".m4a") && !IsVideoPath(p) ==> ExtractApple(p, lib) == GenericMetadata(p, lib)
  {
    NotBothExtensions(p);
  }

  /** A video extraction is either the fallback record or an MP4 record with a size and
      no album; off video extensions it is always the fallback. */
  lemma ExtractVideoShape(p: string, lib: Library)
    ensures !IsVideoPath(p) ==> ExtractVideo(p, lib) == DefaultMetadata(p)
    ensures ExtractVideo(p, lib) == DefaultMetadata(p)
      || (IsVideoPath(p) && lib.openMp4(p).Some? && ExtractVideo(p, lib).album.None?
          && ExtractVideo(p, lib).width.Some? && ExtractVideo(p, lib).height.Some?
          && ExtractVideo(p, lib).duration == lib.openMp4(p).value.length)
  {
  }

  /** A file neither opener can read gets the fallback record. */
  lemma UnreadableGivesDefault(p: string, lib: Library)
    requires lib.openMp4(p).None? && lib.openAny(p).None?
    ensures ExtractApple(p, lib) == DefaultMetadata(p)
    ensures ExtractAudio(p, lib) == DefaultMetadata(p) && ExtractVideo(p, lib) == DefaultMetadata(p)
  {
  }

  /** Any thumbnail is the '.jpg' beside the file, and one that could be written. */
  lemma ThumbnailIsCoverPath(p: string, lib: Library)
    ensures ExtractApple(p, lib).thumbnail.Some? ==>
      ExtractApple(p, lib).thumbnail.value == CoverPath(p) && lib.writable(CoverPath(p))
  {
    if EndsWith(p, ".m4a") {
      if lib.openMp4(p).Some? {
        var m := lib.openMp4(p).value;
        AudioThumbnail(m, p, Mp4Keys, CoverArt(m, p, lib));
      }
    } else if IsVideoPath(p) {
      if lib.openMp4(p).Some? {
        var _ := CoverArt(lib.openMp4(p).value, p, lib);
      }
    } else if lib.openAny(p).Some? {
      var m := lib.openAny(p).value;
      AudioThumbnail(m, p, PlainKeys, if m.pictures.Some? then CoverArt(m, p, lib) else None);
    }
  }

  lemma AudioThumbnail(m: MediaFile, p: string, keys: (string, string, string), thumbnail: Option<string>)
    ensures AudioRecord(m, p, keys, thumbnail).thumbnail in {None, thumbnail}
  {
  }

  /** An '.m4a' whose tags can be read reports them, with the documented defaults for
      missing ones; an empty tag list gives the fallback record instead. */
  lemma M4aRecord(p: string, lib: Library, m: MediaFile)
    requires EndsWith(p, ".m4a") && lib.openMp4(p) == Some(m)
    ensures (TagOr(m, Mp4Keys.0, "Unknown").None? || TagOr(m, Mp4Keys.1, "Unknown Artist").None?
             || TagOr(m, Mp4Keys.2, "Unknown Album").None?) ==> ExtractApple(p, lib) == DefaultMetadata(p)
    ensures (TagOr(m, Mp4Keys.0, "Unknown").Some? && TagOr(m, Mp4Keys.1, "Unknown Artist").Some?
             && TagOr(m, Mp4Keys.2, "Unknown Album").Some?) ==>
      ExtractApple(p, lib) == Meta(TagOr(m, Mp4Keys.0, "Unknown").value, TagOr(m, Mp4Keys.1, "Unknown Artist").value,
                                   TagOr(m, Mp4Keys.2, "Unknown Album"), m.length, CoverArt(m, p, lib), None, None)
  {
  }
}
