/** bot/helpers/uploader.py: the zip naming of `create_simple_zip`, the Rclone path and
    link logic, and the upload decision trees of tracks, videos, albums, artists and
    playlists, each as the ordered list of actions it takes. */
module Uploader {
  import opened Common
  import opened Strings
  import opened Paths
  import opened Utils
  import Message

  // ================================================================ zip naming

  predicate IsAsciiWordChar(c: char)
  {
    IsLetter(c) || IsDigit(c) || c == '_'
  }

  /** The characters `re.sub(r'[^\w\s-]', '', title)` keeps. */
  predicate KeptInTitle(c: char)
  {
    IsAsciiWordChar(c) || c as int >= 128 || IsSpace(c) || c == '-'
  }

  function KeepTitleChars(s: string): (r: string)
    ensures |r| <= |s|
    ensures forall i :: 0 <= i < |r| ==> KeptInTitle(r[i])
    ensures (forall i :: 0 <= i < |s| ==> KeptInTitle(s[i])) ==> r == s
  {
    if s == [] then []
    else if KeptInTitle(s[0]) then [s[0]] + KeepTitleChars(s[1..])
    else KeepTitleChars(s[1..])
  }

  /** `re.sub(r'[^\w\s-]', '', title)[:50]`. */
  function SafeTitle(title: string): string
  {
    Take(KeepTitleChars(title), 50)
  }

  /** A safe title is at most fifty kept characters, and making it safe again changes
      nothing. */
  lemma SafeTitleFacts(title: string)
    ensures |SafeTitle(title)| <= 50
    ensures forall i :: 0 <= i < |SafeTitle(title)| ==> KeptInTitle(SafeTitle(title)[i])
    ensures SafeTitle(SafeTitle(title)) == SafeTitle(title)
  {
    var k := KeepTitleChars(title);
    var s := SafeTitle(title);
    assert forall i :: 0 <= i < |s| ==> s[i] == k[i];
  }

  function OrDefault(o: Option<string>, d: string): string
  {
    if o.Some? then o.value else d
  }

  function TypeSuffix(kind: string): string
  {
    if kind == "album" then "_Album"
    else if kind == "artist" then "_Discography"
    else if kind == "playlist" then "_Playlist"
    else ""
  }

  /** `create_simple_zip`'s path, from `metadata.get('type')`, `get('provider')` and
      `get('title')`. */
  function SimpleZipPath(folderpath: string, kind: Option<string>, provider: Option<string>, title: Option<string>): string
  {
    // `{folderpath}_{provider}_{safe_title}{suffix}.zip`
    folderpath + "_" + OrDefault(provider, "AppleMusic") + "_" + SafeTitle(OrDefault(title, "download"))
      + TypeSuffix(OrDefault(kind, "content")) + ".zip"
  }

  /** The zip is the folder's path, `_`, the provider, `_`, the safe title, the type's
      suffix (only for album, artist and playlist) and `.zip`. */
  lemma SimpleZipPathShape(folderpath: string, kind: Option<string>, provider: Option<string>, title: Option<string>)
    ensures StartsWith(SimpleZipPath(folderpath, kind, provider, title), folderpath + "_" + OrDefault(provider, "AppleMusic") + "_" + SafeTitle(OrDefault(title, "download")))
    ensures EndsWith(SimpleZipPath(folderpath, kind, provider, title), ".zip")
    ensures kind == Some("album") ==> EndsWith(SimpleZipPath(folderpath, kind, provider, title), "_Album.zip")
    ensures kind == Some("artist") ==> EndsWith(SimpleZipPath(folderpath, kind, provider, title), "_Discography.zip")
    ensures kind == Some("playlist") ==> EndsWith(SimpleZipPath(folderpath, kind, provider, title), "_Playlist.zip")
    ensures kind.None? ==> (SimpleZipPath(folderpath, kind, provider, title)
      == folderpath + "_" + OrDefault(provider, "AppleMusic") + "_" + SafeTitle(OrDefault(title, "download")) + ".zip")
  {
    var head := folderpath + "_" + OrDefault(provider, "AppleMusic") + "_" + SafeTitle(OrDefault(title, "download"));
    var suffix := TypeSuffix(OrDefault(kind, "content"));
    assert SimpleZipPath(folderpath, kind, provider, title) == head + suffix + ".zip";
    ZipNameParts(head, suffix);
    SuffixLiterals();
  }

  lemma ZipNameParts(head: string, suffix: string)
    ensures StartsWith(head + suffix + ".zip", head)
    ensures EndsWith(head + suffix + ".zip", ".zip") && EndsWith(head + suffix + ".zip", suffix + ".zip")
    ensures suffix == "" ==> head + suffix + ".zip" == head + ".zip"
  {
    ConcatStarts(head, suffix, ".zip");
    ConcatEnds(head + suffix, ".zip");
    ConcatSuffix(head, suffix, ".zip");
    if suffix == "" {
      assert head + suffix == head;
    }
  }

  lemma SuffixLiterals()
    ensures TypeSuffix("album") + ".zip" == "_Album.zip"
    ensures TypeSuffix("artist") + ".zip" == "_Discography.zip"
    ensures TypeSuffix("playlist") + ".zip" == "_Playlist.zip"
    ensures TypeSuffix("content") == ""
  {
  }

  lemma ConcatSuffix(a: string, b: string, c: string)
    ensures EndsWith(a + b + c, b + c)
  {
    assert (a + b + c)[|a + b + c| - |b + c|..] == b + c;
  }

  lemma ConcatStarts(a: string, b: string, c: string)
    ensures StartsWith(a + b + c, a)
  {
    assert (a + b + c)[..|a|] == a;
  }

  lemma EndsWithTrans(s: string, t: string, u: string)
    requires EndsWith(s, t) && EndsWith(t, u)
    ensures EndsWith(s, u)
  {
    assert s[|s| - |u|..] == t[|t| - |u|..];
  }

  lemma ConcatEnds(a: string, b: string)
    ensures StartsWith(a + b, a) && EndsWith(a + b, b)
  {
    assert (a + b)[..|a|] == a;
    assert (a + b)[|a + b| - |b|..] == b;
  }

  /** The zip sits beside the folder, not inside it, so removing the folder's tree keeps
      the zip. */
  lemma SimpleZipBesideFolder(disk: set<string>, folderpath: string, kind: Option<string>, provider: Option<string>, title: Option<string>)
    requires folderpath != "" && folderpath[|folderpath| - 1] != '/'
    ensures !Under(SimpleZipPath(folderpath, kind, provider, title), folderpath)
    ensures SimpleZipPath(folderpath, kind, provider, title) in disk ==>
      SimpleZipPath(folderpath, kind, provider, title) in ApplyEffect(disk, RemoveTree(folderpath))
  {
    var z := SimpleZipPath(folderpath, kind, provider, title);
    var head := folderpath + "_" + OrDefault(provider, "AppleMusic") + "_" + SafeTitle(OrDefault(title, "download"));
    assert z[|folderpath|] == head[|folderpath|] == (folderpath + "_")[|folderpath|] == '_';
    BesideFolder(disk, folderpath, z);
  }

  /** A path that continues the folder's name with `_` is not below the folder. */
  lemma BesideFolder(disk: set<string>, f: string, z: string)
    requires f != "" && f[|f| - 1] != '/'
    requires |z| > |f| && z[|f|] == '_'
    ensures !Under(z, f)
    ensures z in disk ==> z in ApplyEffect(disk, RemoveTree(f))
  {
    assert RStripSlash(f) == f;
    assert !StartsWith(z, f + "/") by {
      assert (f + "/")[|f|] == '/';
    }
  }

  // ================================================================ Rclone

  /** The upload settings `uploader.py` reads: `Config.UPLOAD_MODE`, `LOCAL_STORAGE`,
      `RCLONE_DEST`, `INDEX_LINK`, the zip flags, and `bot_set.link_options`. */
  datatype UploadConfig = UploadConfig(mode: string, localStorage: string, rcloneDest: Option<string>,
                                       indexLink: Option<string>, linkOptions: string, zips: ZipFlags)

  /** The base the Rclone path is taken relative to: the local storage, or its
      `Apple Music` folder. */
  function BasePath(path: string, localStorage: string): (r: string)
    ensures StartsWith(r, localStorage)
  {
    if Contains(path, "Apple Music") then
      assert !StartsWith("Apple Music", "/") by {
        assert "Apple Music"[..1][0] == 'A';
      }
      Join(localStorage, "Apple Music")
    else localStorage
  }

  /** `str(path).replace(base_path, "").lstrip('/')`. */
  function RcloneRelative(path: string, basePath: string): string
  {
    LStripChar(RemoveAll(path, basePath), '/')
  }

  /** `rclone_upload` as the rest of this model uses it, with `link_options` passed in:
      no links without `RCLONE_DEST`; otherwise the direct link from `rclone link` when it
      exits 0, and the index link with the relative path unencoded. */
  function RcloneUpload(path: string, basePath: string, cfg: UploadConfig, run: string -> CliResult): (r: Links)
    ensures !Truthy(cfg.rcloneDest) ==> r == Links(None, None)
    ensures r.rclone.Some? <==> (Truthy(cfg.rcloneDest) && WantsRclone(cfg.linkOptions)
      && run(RcloneLinkCommand(cfg.rcloneDest.value, RcloneRelative(path, basePath))).returncode == 0)
    ensures r.rclone.Some? ==> r.rclone.value == Strip(run(RcloneLinkCommand(cfg.rcloneDest.value, RcloneRelative(path, basePath))).stdout)
    ensures r.index.Some? <==> Truthy(cfg.rcloneDest) && WantsIndex(cfg.linkOptions) && Truthy(cfg.indexLink)
    ensures r.index.Some? ==> r.index.value == cfg.indexLink.value + "/" + RcloneRelative(path, basePath)
  {
    if !Truthy(cfg.rcloneDest) then Links(None, None)
    else
      var rel := RcloneRelative(path, basePath);
      var rclone :=
        if WantsRclone(cfg.linkOptions) then
          var res := run(RcloneLinkCommand(cfg.rcloneDest.value, rel));
          if res.returncode == 0 then Some(Strip(res.stdout)) else None
        else None;
      var index := if WantsIndex(cfg.linkOptions) && Truthy(cfg.indexLink) then Some(cfg.indexLink.value + "/" + rel) else None;
      Links(rclone, index)
  }

  /** `rclone_upload` as written: `bot_set` is not imported into the module, so once
      `RCLONE_DEST` is set the first read of `bot_set.link_options` raises NameError. */
  function RcloneUploadAsWritten(path: string, basePath: string, cfg: UploadConfig): (r: Result<Links>)
  {
    if !Truthy(cfg.rcloneDest) then Ok(Links(None, None))
    else Err("NameError: name 'bot_set' is not defined")
  }

  /** With a destination configured, the written function never returns links. */
  lemma RcloneUploadAsWrittenFails(path: string, basePath: string, cfg: UploadConfig)
    ensures RcloneUploadAsWritten(path, basePath, cfg).Ok? <==> !Truthy(cfg.rcloneDest)
    ensures RcloneUploadAsWritten(path, basePath, cfg).Ok? ==> RcloneUploadAsWritten(path, basePath, cfg).value == Links(None, None)
  {
  }

  lemma {:induction false} ReplaceAllLeading(k: string, s: string, v: string)
    requires |k| > 0
    ensures ReplaceAll(k + s, k, v) == v + ReplaceAll(s, k, v)
  {
    assert (k + s)[..|k|] == k && (k + s)[|k|..] == s;
  }

  /** A file below the base whose remaining path does not repeat the base gets the remaining
      path, its leading slashes dropped. */
  lemma RcloneRelativeOfJoin(base: string, rel: string)
    requires base != "" && !Contains("/" + rel, base)
    ensures RcloneRelative(base + "/" + rel, base) == LStripChar(rel, '/')
  {
    var s := "/" + rel;
    assert RemoveAll(base + "/" + rel, base) == s by {
      assert base + "/" + rel == base + s;
      ReplaceAllLeading(base, s, "");
    }
    assert LStripChar(s, '/') == LStripChar(rel, '/') by {
      assert s[1..] == rel;
    }
  }

  /** A path below `LOCAL_STORAGE/Apple Music` is uploaded relative to that folder: its
      Rclone path is what follows the folder, leading slashes dropped. */
  lemma BasePathApple(localStorage: string, rel: string)
    requires localStorage != "" && localStorage[|localStorage| - 1] != '/'
    requires !Contains("/" + rel, localStorage + "/Apple Music")
    ensures BasePath(localStorage + "/Apple Music/" + rel, localStorage) == localStorage + "/Apple Music"
    ensures RcloneRelative(localStorage + "/Apple Music/" + rel, BasePath(localStorage + "/Apple Music/" + rel, localStorage))
      == LStripChar(rel, '/')
  {
    var name := "Apple Music";
    assert name[0] == 'A';
    assert localStorage + "/Apple Music/" + rel == localStorage + "/" + name + "/" + rel;
    assert localStorage + "/Apple Music" == localStorage + "/" + name;
    FolderBelowJoin(localStorage, name, rel);
  }

  /** The folder `name` joined onto the storage occurs in a path below it, and the path is
      taken relative to it. */
  lemma FolderBelowJoin(localStorage: string, name: string, rel: string)
    requires localStorage != "" && localStorage[|localStorage| - 1] != '/' && name != "" && name[0] != '/'
    requires !Contains("/" + rel, localStorage + "/" + name)
    ensures Contains(localStorage + "/" + name + "/" + rel, name)
    ensures Join(localStorage, name) == localStorage + "/" + name
    ensures RcloneRelative(localStorage + "/" + name + "/" + rel, localStorage + "/" + name) == LStripChar(rel, '/')
  {
    var path := localStorage + "/" + name + "/" + rel;
    var k := |localStorage| + 1;
    assert path[k..k + |name|] == name;
    ContainsAt(path, name, k);
    assert !StartsWith(name, "/") by {
      assert name[..1][0] == name[0];
    }
    assert !EndsWith(localStorage, "/") by {
      assert localStorage[|localStorage| - 1..][0] == localStorage[|localStorage| - 1];
    }
    assert path == (localStorage + "/" + name) + "/" + rel;
    RcloneRelativeOfJoin(localStorage + "/" + name, rel);
  }

  /** Any other path below `LOCAL_STORAGE` is uploaded relative to the storage itself. */
  lemma BasePathOther(localStorage: string, rel: string)
    requires localStorage != ""
    requires !Contains(localStorage + "/" + rel, "Apple Music") && !Contains("/" + rel, localStorage)
    ensures BasePath(localStorage + "/" + rel, localStorage) == localStorage
    ensures RcloneRelative(localStorage + "/" + rel, localStorage) == LStripChar(rel, '/')
  {
    RcloneRelativeOfJoin(localStorage, rel);
  }

  // ================================================================ actions

  /** A message text as `format_string` is asked for it: the template, the data, and the
      index link whose line is appended afterwards. */
  datatype Caption = Caption(template: string, data: map<string, string>, indexLink: Option<string>)

  /** The effects of the upload functions, in the order they happen. */
  datatype Action =
    | SendFile(kind: string, file: string, caption: Caption, meta: Option<Message.MediaMeta>)  // 'audio', 'video' or 'doc'
    | SendText(text: Caption)
    | EditText(message: int, text: Caption)
    | MakeZip(folder: string, zip: string)                    // create_simple_zip; sources are kept
    | Fs(effect: Effect)

  /** A track or music video's metadata record; `width` and `height` are present only
      for some videos. */
  datatype Track = Track(filepath: string, title: string, artist: string, duration: int, thumbnail: Option<string>,
                         provider: Option<string>, width: Option<int>, height: Option<int>)

  datatype Album = Album(folderpath: string, title: string, artist: string, kind: Option<string>,
                         provider: Option<string>, posterMsg: Option<int>, tracks: seq<Track>)

  datatype Artist = Artist(folderpath: string, title: string, kind: Option<string>, provider: Option<string>, albums: seq<Album>)

  datatype Playlist = Playlist(folderpath: string, title: string, artist: Option<string>, kind: Option<string>,
                               provider: Option<string>, tracks: seq<Track>)

  /** The caption data: `metadata.get('provider', 'Apple Music')` beside the named fields. */
  function CaptionData(fields: map<string, string>, provider: Option<string>): map<string, string>
  {
    fields["provider" := OrDefault(provider, "Apple Music")]
  }

  /** The text sent: the formatted template, then the index-link line when there is an
      index link. */
  function Render(c: Caption): string
  {
    var text := Format(c.template, c.data, None);
    if Truthy(c.indexLink) then text + "\n?? [Index Link](" + c.indexLink.value + ")" else text
  }

  const DirectLinkLine: string := "\n?? [Direct Link]"

  /** The Rclone message: the caption with its direct-link line and the index link. */
  function RcloneCaption(template: string, data: map<string, string>, links: Links): Caption
  {
    Caption(template + DirectLinkLine + "({r_link})", data, links.index)
  }

  /** Without an index link, a Rclone message ends with the literal `({r_link})`: the
      direct link itself never reaches the text. */
  lemma RcloneTextKeepsRLink(template: string, data: map<string, string>, links: Links)
    requires !Truthy(links.index)
    ensures EndsWith(Render(RcloneCaption(template, data, links)), "({r_link})")
    ensures Render(RcloneCaption(template, data, links)) == Format(template + DirectLinkLine, data, None) + "({r_link})"
  {
    FormatKeepsRLink(template + DirectLinkLine, data, None);
  }

  /** With one, it ends with the index-link line. */
  lemma RcloneTextIndexLine(template: string, data: map<string, string>, links: Links)
    requires Truthy(links.index)
    ensures EndsWith(Render(RcloneCaption(template, data, links)), "\n?? [Index Link](" + links.index.value + ")")
  {
  }

  /** The upload step of `track_upload` (`video == false`) or `music_video_upload`. */
  function MediaUpload(cfg: UploadConfig, run: string -> CliResult, t: Track, video: bool): seq<Action>
  {
    var data := CaptionData(map["title" := t.title, "artist" := t.artist], t.provider);
    var template := if video then "?? **{title}**\n?? {artist}\n?? {provider} Music Video" else "?? **{title}**\n?? {artist}\n?? {provider}";
    if cfg.mode == "Telegram" then
      [SendFile(MediaKind(video), t.filepath, Caption(template, data, None), Some(SendMeta(t, video)))]
    else if cfg.mode == "Rclone" then
      [SendText(RcloneCaption(template, data, RcloneUpload(t.filepath, BasePath(t.filepath, cfg.localStorage), cfg, run)))]
    else []
  }

  /** The `meta` passed to `send_message`: duration, artist, title and thumbnail for a
      track, and the whole record, sizes included, for a music video. */
  function SendMeta(t: Track, video: bool): Message.MediaMeta
  {
    Message.MediaMeta(Some(t.duration), Some(t.artist), Some(t.title), t.thumbnail,
                      if video then t.width else None, if video then t.height else None)
  }

  /** The file is removed, and then its thumbnail when it has one. */
  function MediaCleanup(t: Track): seq<Action>
  {
    [Fs(RemovePath(t.filepath))] + (if Truthy(t.thumbnail) then [Fs(RemovePath(t.thumbnail.value))] else [])
  }

  function TrackActions(cfg: UploadConfig, run: string -> CliResult, t: Track): seq<Action>
  {
    MediaUpload(cfg, run, t, false) + MediaCleanup(t)
  }

  function VideoActions(cfg: UploadConfig, run: string -> CliResult, t: Track): seq<Action>
  {
    MediaUpload(cfg, run, t, true) + MediaCleanup(t)
  }

  function TracksActions(cfg: UploadConfig, run: string -> CliResult, ts: seq<Track>): seq<Action>
  {
    if ts == [] then [] else TracksActions(cfg, run, ts[..|ts| - 1]) + TrackActions(cfg, run, ts[|ts| - 1])
  }

  /** Zip the folder, send the zip as a document, remove the zip. */
  function ZipAndSend(folder: string, zip: string, caption: Caption): seq<Action>
  {
    [MakeZip(folder, zip), SendFile("doc", zip, caption, None), Fs(RemovePath(zip))]
  }

  function AlbumActions(cfg: UploadConfig, run: string -> CliResult, a: Album): seq<Action>
  {
    var data := CaptionData(map["album" := a.title, "artist" := a.artist], a.provider);
    var upload :=
      if cfg.mode == "Telegram" then
        if cfg.zips.album then
          ZipAndSend(a.folderpath, SimpleZipPath(a.folderpath, a.kind, a.provider, Some(a.title)),
                     Caption("?? **{album}**\n?? {artist}\n?? {provider}", data, None))
        else TracksActions(cfg, run, a.tracks)
      else if cfg.mode == "Rclone" then
        var text := RcloneCaption("?? **{album}**\n?? {artist}\n?? {provider}", data,
                               RcloneUpload(a.folderpath, BasePath(a.folderpath, cfg.localStorage), cfg, run));
        if a.posterMsg.Some? then [EditText(a.posterMsg.value, text)] else [SendText(text)]
      else [];
    upload + [Fs(RemoveTree(a.folderpath))]
  }

  function AlbumsActions(cfg: UploadConfig, run: string -> CliResult, albums: seq<Album>): seq<Action>
  {
    if albums == [] then [] else AlbumsActions(cfg, run, albums[..|albums| - 1]) + AlbumActions(cfg, run, albums[|albums| - 1])
  }

  lemma TracksActionsSnoc(cfg: UploadConfig, run: string -> CliResult, ts: seq<Track>, i: nat)
    requires i < |ts|
    ensures TracksActions(cfg, run, ts[..i + 1]) == TracksActions(cfg, run, ts[..i]) + TrackActions(cfg, run, ts[i])
  {
    assert ts[..i + 1][..i] == ts[..i];
  }

  lemma AlbumsActionsSnoc(cfg: UploadConfig, run: string -> CliResult, albums: seq<Album>, i: nat)
    requires i < |albums|
    ensures AlbumsActions(cfg, run, albums[..i + 1]) == AlbumsActions(cfg, run, albums[..i]) + AlbumActions(cfg, run, albums[i])
  {
    assert albums[..i + 1][..i] == albums[..i];
  }

  lemma SeqAssoc<T>(x: seq<T>, y: seq<T>, z: seq<T>)
    ensures x + y + z == x + (y + z)
  {
  }

  function ArtistActions(cfg: UploadConfig, run: string -> CliResult, ar: Artist): seq<Action>
  {
    var data := CaptionData(map["artist" := ar.title], ar.provider);
    var upload :=
      if cfg.mode == "Telegram" then
        if cfg.zips.artist then
          ZipAndSend(ar.folderpath, SimpleZipPath(ar.folderpath, ar.kind, ar.provider, Some(ar.title)),
                     Caption("?? **{artist}**\n?? {provider} Discography", data, None))
        else AlbumsActions(cfg, run, ar.albums)
      else if cfg.mode == "Rclone" then
        [SendText(RcloneCaption("?? **{artist}**\n?? {provider} Discography", data,
                             RcloneUpload(ar.folderpath, BasePath(ar.folderpath, cfg.localStorage), cfg, run)))]
      else [];
    upload + [Fs(RemoveTree(ar.folderpath))]
  }

  function PlaylistActions(cfg: UploadConfig, run: string -> CliResult, p: Playlist): seq<Action>
  {
    var data := CaptionData(map["title" := p.title, "artist" := OrDefault(p.artist, "Various Artists")], p.provider);
    var template := "?? **{title}**\n?? Curated by {artist}\n?? {provider} Playlist";
    var upload :=
      if cfg.mode == "Telegram" then
        if cfg.zips.playlist then
          ZipAndSend(p.folderpath, SimpleZipPath(p.folderpath, p.kind, p.provider, Some(p.title)), Caption(template, data, None))
        else TracksActions(cfg, run, p.tracks)
      else if cfg.mode == "Rclone" then
        [SendText(RcloneCaption(template, data, RcloneUpload(p.folderpath, BasePath(p.folderpath, cfg.localStorage), cfg, run)))]
      else [];
    upload + [Fs(RemoveTree(p.folderpath))]
  }

  // ================================================================ the uploader

  /** The upload functions, run against a trace of the actions taken so far. */
  class Uploader {
    var trace: seq<Action>
    const cfg: UploadConfig
    const run: string -> CliResult

    constructor (cfg: UploadConfig, run: string -> CliResult)
      ensures trace == [] && this.cfg == cfg && this.run == run
    {
      this.cfg := cfg;
      this.run := run;
      trace := [];
    }

    method Send(a: Action)
      modifies this
      ensures trace == old(trace) + [a]
    {
      trace := trace + [a];
    }

    /** `track_upload`. */
    method TrackUpload(t: Track)
      modifies this
      ensures trace == old(trace) + TrackActions(cfg, run, t)
    {
      trace := trace + MediaUpload(cfg, run, t, false);
      Send(Fs(RemovePath(t.filepath)));
      if Truthy(t.thumbnail) {
        Send(Fs(RemovePath(t.thumbnail.value)));
      }
    }

    /** `music_video_upload`. */
    method MusicVideoUpload(t: Track)
      modifies this
      ensures trace == old(trace) + VideoActions(cfg, run, t)
    {
      trace := trace + MediaUpload(cfg, run, t, true);
      Send(Fs(RemovePath(t.filepath)));
      if Truthy(t.thumbnail) {
        Send(Fs(RemovePath(t.thumbnail.value)));
      }
    }

    method UploadTracks(ts: seq<Track>)
      modifies this
      ensures trace == old(trace) + TracksActions(cfg, run, ts)
    {
      var i := 0;
      while i < |ts|
        invariant 0 <= i <= |ts|
        invariant trace == old(trace) + TracksActions(cfg, run, ts[..i])
      {
        TrackUpload(ts[i]);
        TracksActionsSnoc(cfg, run, ts, i);
        SeqAssoc(old(trace), TracksActions(cfg, run, ts[..i]), TrackActions(cfg, run, ts[i]));
        i := i + 1;
      }
      assert ts[..|ts|] == ts;
    }

    /** `album_upload`. */
    method AlbumUpload(a: Album)
      modifies this
      ensures trace == old(trace) + AlbumActions(cfg, run, a)
    {
      if cfg.mode == "Telegram" && !cfg.zips.album {
        UploadTracks(a.tracks);
      } else {
        var data := CaptionData(map["album" := a.title, "artist" := a.artist], a.provider);
        if cfg.mode == "Telegram" {
          var zip := SimpleZipPath(a.folderpath, a.kind, a.provider, Some(a.title));
          trace := trace + ZipAndSend(a.folderpath, zip, Caption("?? **{album}**\n?? {artist}\n?? {provider}", data, None));
        } else if cfg.mode == "Rclone" {
          var links := RcloneUpload(a.folderpath, BasePath(a.folderpath, cfg.localStorage), cfg, run);
          var text := RcloneCaption("?? **{album}**\n?? {artist}\n?? {provider}", data, links);
          if a.posterMsg.Some? {
            Send(EditText(a.posterMsg.value, text));
          } else {
            Send(SendText(text));
          }
        }
      }
      Send(Fs(RemoveTree(a.folderpath)));
    }

    method UploadAlbums(albums: seq<Album>)
      modifies this
      ensures trace == old(trace) + AlbumsActions(cfg, run, albums)
    {
      var i := 0;
      while i < |albums|
        invariant 0 <= i <= |albums|
        invariant trace == old(trace) + AlbumsActions(cfg, run, albums[..i])
      {
        AlbumUpload(albums[i]);
        AlbumsActionsSnoc(cfg, run, albums, i);
        SeqAssoc(old(trace), AlbumsActions(cfg, run, albums[..i]), AlbumActions(cfg, run, albums[i]));
        i := i + 1;
      }
      assert albums[..|albums|] == albums;
    }

    /** `artist_upload`. */
    method ArtistUpload(ar: Artist)
      modifies this
      ensures trace == old(trace) + ArtistActions(cfg, run, ar)
    {
      if cfg.mode == "Telegram" && !cfg.zips.artist {
        UploadAlbums(ar.albums);
      } else {
        var data := CaptionData(map["artist" := ar.title], ar.provider);
        if cfg.mode == "Telegram" {
          var zip := SimpleZipPath(ar.folderpath, ar.kind, ar.provider, Some(ar.title));
          trace := trace + ZipAndSend(ar.folderpath, zip, Caption("?? **{artist}**\n?? {provider} Discography", data, None));
        } else if cfg.mode == "Rclone" {
          var links := RcloneUpload(ar.folderpath, BasePath(ar.folderpath, cfg.localStorage), cfg, run);
          Send(SendText(RcloneCaption("?? **{artist}**\n?? {provider} Discography", data, links)));
        }
      }
      Send(Fs(RemoveTree(ar.folderpath)));
    }

    /** `playlist_upload`. */
    method PlaylistUpload(p: Playlist)
      modifies this
      ensures trace == old(trace) + PlaylistActions(cfg, run, p)
    {
      if cfg.mode == "Telegram" && !cfg.zips.playlist {
        UploadTracks(p.tracks);
      } else {
        var data := CaptionData(map["title" := p.title, "artist" := OrDefault(p.artist, "Various Artists")], p.provider);
        var template := "?? **{title}**\n?? Curated by {artist}\n?? {provider} Playlist";
        if cfg.mode == "Telegram" {
          var zip := SimpleZipPath(p.folderpath, p.kind, p.provider, Some(p.title));
          trace := trace + ZipAndSend(p.folderpath, zip, Caption(template, data, None));
        } else if cfg.mode == "Rclone" {
          var links := RcloneUpload(p.folderpath, BasePath(p.folderpath, cfg.localStorage), cfg, run);
          Send(SendText(RcloneCaption(template, data, links)));
        }
      }
      Send(Fs(RemoveTree(p.folderpath)));
    }
  }

  // ================================================================ properties of the traces

  /** The files sent to the chat, in order. */
  function SentFiles(actions: seq<Action>): seq<string>
  {
    if actions == [] then []
    else SentFiles(actions[..|actions| - 1]) + (if actions[|actions| - 1].SendFile? then [actions[|actions| - 1].file] else [])
  }

  /** The trees removed, in order. */
  function RemovedTrees(actions: seq<Action>): seq<string>
  {
    if actions == [] then []
    else
      var a := actions[|actions| - 1];
      RemovedTrees(actions[..|actions| - 1]) + (if a.Fs? && a.effect.RemoveTree? then [a.effect.path] else [])
  }

  lemma {:induction false} SentFilesAppend(x: seq<Action>, y: seq<Action>)
    ensures SentFiles(x + y) == SentFiles(x) + SentFiles(y)
    decreases |y|
  {
    if y == [] {
      assert x + y == x;
    } else {
      assert (x + y)[..|x + y| - 1] == x + y[..|y| - 1];
      SentFilesAppend(x, y[..|y| - 1]);
    }
  }

  lemma {:induction false} RemovedTreesAppend(x: seq<Action>, y: seq<Action>)
    ensures RemovedTrees(x + y) == RemovedTrees(x) + RemovedTrees(y)
    decreases |y|
  {
    if y == [] {
      assert x + y == x;
    } else {
      assert (x + y)[..|x + y| - 1] == x + y[..|y| - 1];
      RemovedTreesAppend(x, y[..|y| - 1]);
    }
  }

  function FilePaths(ts: seq<Track>): (r: seq<string>)
    ensures |r| == |ts| && forall i :: 0 <= i < |ts| ==> r[i] == ts[i].filepath
  {
    if ts == [] then [] else FilePaths(ts[..|ts| - 1]) + [ts[|ts| - 1].filepath]
  }

  function FolderPaths(albums: seq<Album>): (r: seq<string>)
    ensures |r| == |albums| && forall i :: 0 <= i < |albums| ==> r[i] == albums[i].folderpath
  {
    if albums == [] then [] else FolderPaths(albums[..|albums| - 1]) + [albums[|albums| - 1].folderpath]
  }

  /** In Telegram mode a track goes out as audio with its own duration, artist, title and
      thumbnail, and a music video as video with its duration, its size (1920x1080 when
      the record has none) and its thumbnail. */
  lemma MediaSentWithMeta(cfg: UploadConfig, run: string -> CliResult, t: Track, video: bool, user: Message.UserDetails)
    requires cfg.mode == "Telegram"
    ensures MediaUpload(cfg, run, t, video)[0].SendFile?
    ensures MediaUpload(cfg, run, t, video)[0].file == t.filepath
    ensures var a := MediaUpload(cfg, run, t, video)[0];
      var c := Message.CallFor(user, a.file, a.kind, Some(Render(a.caption)), None, a.meta).value;
      if video then
        c.SendVideo? && c.video == t.filepath && c.duration == t.duration && c.thumb == t.thumbnail
        && c.width == (if t.width.Some? then t.width.value else 1920)
        && c.height == (if t.height.Some? then t.height.value else 1080)
      else
        c.SendAudio? && c.audio == t.filepath && c.duration == t.duration && c.performer == t.artist
        && c.title == t.title && c.thumb == t.thumbnail
  {
    var a := MediaUpload(cfg, run, t, video)[0];
    assert a.SendFile? && a.file == t.filepath;
    assert a.kind == MediaKind(video) && a.meta == Some(SendMeta(t, video));
    CallOfSendMeta(user, t, video, Some(Render(a.caption)));
  }

  function MediaKind(video: bool): string
  {
    if video then "video" else "audio"
  }

  lemma CallOfSendMeta(user: Message.UserDetails, t: Track, video: bool, caption: Option<string>)
    ensures var c := Message.CallFor(user, t.filepath, MediaKind(video), caption, None, Some(SendMeta(t, video))).value;
      if video then
        c.SendVideo? && c.video == t.filepath && c.duration == t.duration && c.thumb == t.thumbnail
        && c.width == (if t.width.Some? then t.width.value else 1920)
        && c.height == (if t.height.Some? then t.height.value else 1080)
      else
        c.SendAudio? && c.audio == t.filepath && c.duration == t.duration && c.performer == t.artist
        && c.title == t.title && c.thumb == t.thumbnail
  {
  }

  lemma TrackTelegram(cfg: UploadConfig, run: string -> CliResult, t: Track)
    requires cfg.mode == "Telegram"
    ensures SentFiles(TrackActions(cfg, run, t)) == [t.filepath]
    ensures RemovedTrees(TrackActions(cfg, run, t)) == []
  {
    var up := MediaUpload(cfg, run, t, false);
    var cl := MediaCleanup(t);
    SentFilesAppend(up, cl);
    RemovedTreesAppend(up, cl);
    assert up[..0] == [];
    if Truthy(t.thumbnail) {
      assert cl[..1] == [Fs(RemovePath(t.filepath))];
      assert cl[..1][..0] == [];
    } else {
      assert cl[..0] == [];
    }
  }

  /** Uploading tracks one by one in Telegram mode sends their files in order. */
  lemma {:induction false} TracksTelegram(cfg: UploadConfig, run: string -> CliResult, ts: seq<Track>)
    requires cfg.mode == "Telegram"
    ensures SentFiles(TracksActions(cfg, run, ts)) == FilePaths(ts)
    ensures RemovedTrees(TracksActions(cfg, run, ts)) == []
  {
    if ts != [] {
      var init := ts[..|ts| - 1];
      TracksTelegram(cfg, run, init);
      TrackTelegram(cfg, run, ts[|ts| - 1]);
      SentFilesAppend(TracksActions(cfg, run, init), TrackActions(cfg, run, ts[|ts| - 1]));
      RemovedTreesAppend(TracksActions(cfg, run, init), TrackActions(cfg, run, ts[|ts| - 1]));
    }
  }

  /** A Telegram album with the zip flag off sends every track in order and then removes
      the album folder; with the flag on it sends exactly its zip, and removes it before
      the folder. */
  lemma AlbumTelegram(cfg: UploadConfig, run: string -> CliResult, a: Album)
    requires cfg.mode == "Telegram"
    ensures !cfg.zips.album ==> SentFiles(AlbumActions(cfg, run, a)) == FilePaths(a.tracks)
    ensures !cfg.zips.album ==> AlbumActions(cfg, run, a) == TracksActions(cfg, run, a.tracks) + [Fs(RemoveTree(a.folderpath))]
    ensures cfg.zips.album ==> SentFiles(AlbumActions(cfg, run, a)) == [SimpleZipPath(a.folderpath, a.kind, a.provider, Some(a.title))]
    ensures cfg.zips.album ==> (|AlbumActions(cfg, run, a)| == 4
      && AlbumActions(cfg, run, a)[0] == MakeZip(a.folderpath, SimpleZipPath(a.folderpath, a.kind, a.provider, Some(a.title)))
      && AlbumActions(cfg, run, a)[2] == Fs(RemovePath(SimpleZipPath(a.folderpath, a.kind, a.provider, Some(a.title)))))
    ensures RemovedTrees(AlbumActions(cfg, run, a)) == [a.folderpath]
  {
    var acts := AlbumActions(cfg, run, a);
    var last := [Fs(RemoveTree(a.folderpath))];
    var up := acts[..|acts| - 1];
    assert acts == up + last;
    SentFilesAppend(up, last);
    RemovedTreesAppend(up, last);
    assert last[..0] == [];
    if cfg.zips.album {
      assert up[..2][..1][..0] == [];
      assert up[..2][..1] == [up[0]];
      assert up[..2] == [up[0], up[1]];
      assert SentFiles(up) == SentFiles(up[..2]);
      assert RemovedTrees(up) == RemovedTrees(up[..2]);
    } else {
      TracksTelegram(cfg, run, a.tracks);
    }
  }

  /** A Telegram artist with the zip flag off uploads its albums in order: the trees
      removed are the album folders in order, then the artist folder. */
  lemma {:induction false} AlbumsTelegram(cfg: UploadConfig, run: string -> CliResult, albums: seq<Album>)
    requires cfg.mode == "Telegram"
    ensures RemovedTrees(AlbumsActions(cfg, run, albums)) == FolderPaths(albums)
  {
    if albums != [] {
      var init := albums[..|albums| - 1];
      AlbumsTelegram(cfg, run, init);
      AlbumTelegram(cfg, run, albums[|albums| - 1]);
      RemovedTreesAppend(AlbumsActions(cfg, run, init), AlbumActions(cfg, run, albums[|albums| - 1]));
    }
  }

  lemma ArtistTelegram(cfg: UploadConfig, run: string -> CliResult, ar: Artist)
    requires cfg.mode == "Telegram" && !cfg.zips.artist
    ensures RemovedTrees(ArtistActions(cfg, run, ar)) == FolderPaths(ar.albums) + [ar.folderpath]
    ensures ArtistActions(cfg, run, ar) == AlbumsActions(cfg, run, ar.albums) + [Fs(RemoveTree(ar.folderpath))]
  {
    var last := [Fs(RemoveTree(ar.folderpath))];
    AlbumsTelegram(cfg, run, ar.albums);
    RemovedTreesAppend(AlbumsActions(cfg, run, ar.albums), last);
    assert last[..0] == [];
  }

  /** In Rclone mode an album posts one message: an edit of its poster when it has one,
      a new message otherwise; then its folder is removed. */
  lemma AlbumRclone(cfg: UploadConfig, run: string -> CliResult, a: Album)
    requires cfg.mode == "Rclone"
    ensures |AlbumActions(cfg, run, a)| == 2
    ensures a.posterMsg.Some? <==> AlbumActions(cfg, run, a)[0].EditText?
    ensures a.posterMsg.Some? ==> AlbumActions(cfg, run, a)[0].message == a.posterMsg.value
    ensures a.posterMsg.None? <==> AlbumActions(cfg, run, a)[0].SendText?
    ensures AlbumActions(cfg, run, a)[1] == Fs(RemoveTree(a.folderpath))
  {
  }

  /** Album, artist and playlist uploads always end by removing their folder, in every
      mode; track and video uploads end by removing the file and then the thumbnail. */
  lemma UploadsEndWithCleanup(cfg: UploadConfig, run: string -> CliResult, t: Track, a: Album, ar: Artist, p: Playlist)
    ensures AlbumActions(cfg, run, a)[|AlbumActions(cfg, run, a)| - 1] == Fs(RemoveTree(a.folderpath))
    ensures ArtistActions(cfg, run, ar)[|ArtistActions(cfg, run, ar)| - 1] == Fs(RemoveTree(ar.folderpath))
    ensures PlaylistActions(cfg, run, p)[|PlaylistActions(cfg, run, p)| - 1] == Fs(RemoveTree(p.folderpath))
    ensures |TrackActions(cfg, run, t)| >= |MediaCleanup(t)|
      && TrackActions(cfg, run, t)[|TrackActions(cfg, run, t)| - |MediaCleanup(t)|..] == MediaCleanup(t)
    ensures |VideoActions(cfg, run, t)| >= |MediaCleanup(t)|
      && VideoActions(cfg, run, t)[|VideoActions(cfg, run, t)| - |MediaCleanup(t)|..] == MediaCleanup(t)
  {
  }

  /** In a mode that is neither Telegram nor Rclone nothing is uploaded: only the cleanup. */
  lemma OtherModeOnlyCleans(cfg: UploadConfig, run: string -> CliResult, t: Track, a: Album, ar: Artist, p: Playlist)
    requires cfg.mode != "Telegram" && cfg.mode != "Rclone"
    ensures TrackActions(cfg, run, t) == MediaCleanup(t)
    ensures AlbumActions(cfg, run, a) == [Fs(RemoveTree(a.folderpath))]
    ensures ArtistActions(cfg, run, ar) == [Fs(RemoveTree(ar.folderpath))]
    ensures PlaylistActions(cfg, run, p) == [Fs(RemoveTree(p.folderpath))]
  {
    assert [] + MediaCleanup(t) == MediaCleanup(t);
  }
}
