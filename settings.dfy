/** The bot settings of `bot/settings.py`: values read from the settings database with
    their defaults, the stored-credential encoding, the upload mode, the language, and
    which data a Tidal login starts from.  The database, the environment's configuration,
    the disk and the HTTP fetch of a remote rclone config are inputs; JSON parsing is a
    supplied function. */
module Settings {
  import opened Common
  import opened Strings
  import opened Encoding

  /** The settings database: the text value and the binary value `get_variable` returns
      for a name, when it has one. */
  datatype Db = Db(values: map<string, string>, blobs: map<string, seq<byte>>, idLists: map<string, seq<int>>)

  /** `get_variable(name)[0]`; `None` when the name has no value. */
  function Stored(db: Db, name: string): Option<string>
  {
    if name in db.values then Some(db.values[name]) else None
  }

  /** `__getvalue__`: the stored value when truthy, else `False` (here `None`). */
  function GetValue(db: Db, name: string): (r: Option<string>)
    ensures r.Some? <==> Truthy(Stored(db, name))
    ensures r.Some? ==> r.value == db.values[name] && r.value != ""
  {
    if Truthy(Stored(db, name)) then Stored(db, name) else None
  }

  // ================================================================ credentials

  /** `__encrypt_string__`: the Base64 text of the UTF-8 bytes. */
  function EncryptString(s: string): seq<byte>
  {
    Base64Encode(Utf8Encode(s))
  }

  /** What `__decrypt_string__` gives back: the decoded text, or its own input when the
      Base64 or the UTF-8 decoding fails. */
  datatype Decrypted = Plain(text: string) | Unchanged(raw: seq<byte>)

  function DecryptString(raw: seq<byte>): (r: Decrypted)
    ensures r.Unchanged? ==> r.raw == raw
    ensures r.Plain? ==> Base64Decode(raw).Ok? && Utf8Decode(Base64Decode(raw).value) == Some(r.text)
    ensures Base64Decode(raw).Err? ==> r == Unchanged(raw)
  {
    match Base64Decode(raw)
    case Err(_) => Unchanged(raw)
    case Ok(bytes) =>
      match Utf8Decode(bytes)
      case None => Unchanged(raw)
      case Some(s) => Plain(s)
  }

  /** Decrypting an encrypted string gives it back. */
  lemma EncryptDecryptRoundTrip(s: string)
    ensures DecryptString(EncryptString(s)) == Plain(s)
  {
    Base64RoundTrip(Utf8Encode(s));
    Utf8RoundTrip(s);
  }

  /** A lone symbol is an incomplete group: "a" comes back unchanged. */
  lemma DecryptIncompleteGroup()
    ensures DecryptString([97]) == Unchanged([97])
  {
    DecodeLoneSymbol();
  }

  /** One data symbol and nothing else is an incomplete group. */
  lemma DecodeLoneSymbol()
    ensures Base64Decode([97]).Err?
  {
    LoneSymbol([97]);
  }

  lemma LoneSymbol(s: seq<byte>)
    requires |s| == 1 && B64Value(s[0]) >= 0
    ensures A2B(s, 0, 0, 0, []).Err?
  {
    assert s[1..] == [];
  }

  /** "/w==" decodes to the byte 0xFF, which is not UTF-8, so it comes back unchanged. */
  lemma DecryptNotUtf8()
    ensures DecryptString([47, 119, 61, 61]) == Unchanged([47, 119, 61, 61])
  {
    DecodeSlashW();
    var bad: seq<byte> := [255];
    assert DecodeFirst(bad).None?;
  }

  lemma DecodeSlashW()
    ensures Base64Decode([47, 119, 61, 61]) == Ok([255])
  {
    var b: seq<byte> := [47, 119, 61, 61];
    var none: seq<byte> := [];
    var one: seq<byte> := [255];
    assert A2B(b, 0, 0, 0, none) == A2B(b[1..], 1, 63, 0, none) by {
      assert b[0] == 47 && B64Value(47) == 63;
    }
    assert A2B(b[1..], 1, 63, 0, none) == A2B(b[2..], 2, 0, 0, one) by {
      assert b[1..][0] == 119 && B64Value(119) == 48 && b[1..][1..] == b[2..];
      assert none + [63 * 4 + 48 / 16] == one;
    }
    assert A2B(b[2..], 2, 0, 0, one) == A2B(b[3..], 2, 0, 1, one) by {
      assert b[2..][0] == Pad && b[2..][1..] == b[3..];
    }
    assert A2B(b[3..], 2, 0, 1, one) == Ok(one) by {
      assert b[3..][0] == Pad;
    }
  }

  // ================================================================ upload mode

  /** The configuration the settings read from the environment. */
  datatype Config = Config(admins: seq<int>, enableTidal: Option<string>, rcloneConfig: Option<string>,
                           tidalRefreshToken: Option<string>, tidalCountryCode: Option<string>)

  /** Whether rclone is usable: a local `rclone.conf`, or `RCLONE_CONFIG` naming either an
      http URL that answers 200 (`fetch` gives the status, `None` for an exception) or an
      existing local path. */
  function RcloneAvailable(cfg: Config, disk: set<string>, fetch: string -> Option<int>): bool
  {
    if "rclone.conf" in disk then true
    else if Truthy(cfg.rcloneConfig) then
      if StartsWith(cfg.rcloneConfig.value, "http") then fetch(cfg.rcloneConfig.value) == Some(200)
      else cfg.rcloneConfig.value in disk
    else false
  }

  /** A local `rclone.conf` is enough. More files on disk never make rclone unavailable.
      The fetch is consulted only for an http `RCLONE_CONFIG`, and only at that URL.
      Without `RCLONE_CONFIG`, only `rclone.conf` counts. */
  lemma RcloneAvailableFacts(cfg: Config, disk: set<string>, more: set<string>,
                             fetch: string -> Option<int>, other: string -> Option<int>)
    ensures "rclone.conf" in disk ==> RcloneAvailable(cfg, disk, fetch)
    ensures disk <= more && RcloneAvailable(cfg, disk, fetch) ==> RcloneAvailable(cfg, more, fetch)
    ensures !(Truthy(cfg.rcloneConfig) && StartsWith(cfg.rcloneConfig.value, "http")) ==>
      RcloneAvailable(cfg, disk, fetch) == RcloneAvailable(cfg, disk, other)
    ensures Truthy(cfg.rcloneConfig) && fetch(cfg.rcloneConfig.value) == other(cfg.rcloneConfig.value) ==>
      RcloneAvailable(cfg, disk, fetch) == RcloneAvailable(cfg, disk, other)
    ensures !Truthy(cfg.rcloneConfig) ==> (RcloneAvailable(cfg, disk, fetch) <==> "rclone.conf" in disk)
  {
  }

  /** `upload_mode` from rclone's availability and the stored `UPLOAD_MODE`. */
  function UploadModeFor(rclone: bool, stored: Option<string>): string
  {
    if rclone && stored == Some("RCLONE") then "RCLONE"
    else if stored == Some("Telegram") || stored == Some("Local") then stored.value
    else "Local"
  }

  /** The mode is always one of the three; 'RCLONE' needs rclone, and a stored
      'Telegram' or 'Local' is kept. */
  lemma UploadModeValues(rclone: bool, stored: Option<string>)
    ensures UploadModeFor(rclone, stored) in {"RCLONE", "Telegram", "Local"}
    ensures UploadModeFor(rclone, stored) == "RCLONE" <==> rclone && stored == Some("RCLONE")
    ensures stored == Some("Telegram") ==> UploadModeFor(rclone, stored) == "Telegram"
    ensures UploadModeFor(rclone, stored) == "Local" <==> !(rclone && stored == Some("RCLONE")) && stored != Some("Telegram")
  {
  }

  /** `link_options`: the stored option when rclone is usable and one is stored, else the
      string 'False'. */
  function LinkOptionsFor(rclone: bool, stored: Option<string>): (r: string)
    ensures !rclone ==> r == "False"
    ensures rclone && Truthy(stored) ==> r == stored.value
    ensures !Truthy(stored) ==> r == "False"
  {
    if rclone && Truthy(stored) then stored.value else "False"
  }

  /** `anti_spam`: the stored mode, 'OFF' by default. */
  function AntiSpamFor(stored: Option<string>): (r: string)
    ensures r != ""
    ensures Truthy(stored) ==> r == stored.value
    ensures !Truthy(stored) ==> r == "OFF"
  {
    if Truthy(stored) then stored.value else "OFF"
  }

  // ================================================================ language

  /** One translation module: its `__language__` tag and its name. */
  datatype Language = Language(tag: string, name: string)

  /** The first language with the tag. */
  function FirstLanguage(available: seq<Language>, tag: string): (r: Option<nat>)
    ensures r.Some? ==> r.value < |available| && available[r.value].tag == tag
    ensures r.Some? ==> forall j :: 0 <= j < r.value ==> available[j].tag != tag
    ensures r.None? ==> forall j :: 0 <= j < |available| ==> available[j].tag != tag
  {
    if available == [] then None
    else if available[0].tag == tag then Some(0)
    else match FirstLanguage(available[1..], tag)
      case None => None
      case Some(i) => Some(i + 1)
  }

  /** `lang.s` after `set_language`: the first translation with the tag, else `current`. */
  function SelectLanguage(available: seq<Language>, tag: string, current: Language): (l: Language)
    ensures l == current || l in available
    ensures l != current ==> l.tag == tag
  {
    match FirstLanguage(available, tag)
    case Some(i) => available[i]
    case None => current
  }

  function LanguageFor(db: Db): (tag: string)
    ensures tag != ""
  {
    if Truthy(Stored(db, "BOT_LANGUAGE")) then Stored(db, "BOT_LANGUAGE").value else "en"
  }

  // ================================================================ Tidal

  /** `can_enable_tidal`: `ENABLE_TIDAL` set to 'true' in any letter case. */
  predicate TidalEnabled(cfg: Config)
  {
    Truthy(cfg.enableTidal) && Lower(cfg.enableTidal.value) == "true"
  }

  /** `json.loads(db_users) if db_users else []`, with the parsing done by the database. */
  function IdList(db: Db, name: string): seq<int>
  {
    if name in db.idLists then db.idLists[name] else []
  }

  /** A JSON object with text or null members, as `login_from_saved` takes it. */
  type Json = map<string, Option<string>>

  /** The data a Tidal login starts from: `TIDAL_REFRESH_TOKEN` when set, otherwise the
      saved auth data decrypted and parsed, `None` with nothing saved, and an error when
      parsing fails.  `parse` is `json.loads` on the UTF-8 of the text, `None` when it
      raises. */
  function TidalData(cfg: Config, saved: Option<seq<byte>>, parse: seq<byte> -> Option<Json>): (r: Result<Option<Json>>)
    ensures Truthy(cfg.tidalRefreshToken) ==>
      (r.Ok? && r.value.Some?
       && r.value.value == map["user_id" := None, "refresh_token" := cfg.tidalRefreshToken, "country_code" := cfg.tidalCountryCode])
    ensures !Truthy(cfg.tidalRefreshToken) && (saved.None? || saved.value == []) ==> r == Ok(None)
  {
    if Truthy(cfg.tidalRefreshToken) then
      Ok(Some(map["user_id" := None, "refresh_token" := cfg.tidalRefreshToken, "country_code" := cfg.tidalCountryCode]))
    else if saved.Some? && saved.value != [] then
      var text := match DecryptString(saved.value)
        case Plain(s) => Utf8Encode(s)
        case Unchanged(raw) => raw;
      match parse(text)
      case None => Err("TIDAL: Failed to parse saved auth data")
      case Some(d) => Ok(Some(d))
    else Ok(None)
  }

  /** A login is attempted, and the client added, only with Tidal enabled and non-empty
      data. */
  predicate TidalClientAdded(canEnable: bool, data: Result<Option<Json>>)
  {
    canEnable && data.Ok? && data.value.Some? && data.value.value != map[]
  }

  /** `save_tidal_login` stores the encrypted JSON text; without a refresh token, the
      next login reads exactly that text back. */
  lemma SavedLoginReadBack(cfg: Config, json: string, parse: seq<byte> -> Option<Json>)
    requires !Truthy(cfg.tidalRefreshToken) && json != ""
    ensures EncryptString(json) != []
    ensures TidalData(cfg, Some(EncryptString(json)), parse) ==
      (match parse(Utf8Encode(json)) case None => Err("TIDAL: Failed to parse saved auth data") case Some(d) => Ok(Some(d)))
  {
    EncryptDecryptRoundTrip(json);
    NonEmptyEncoding(json);
  }

  /** Only the empty string encrypts to nothing. */
  lemma NonEmptyEncoding(s: string)
    ensures EncryptString(s) == [] <==> s == ""
  {
    if s != "" {
      Utf8RoundTrip(s);
      assert |Utf8Encode(s)| > 0;
    }
  }

  // ================================================================ the settings object

  class BotSettings {
    var deezer: bool
    var qobuz: bool
    var tidal: bool
    var canEnableTidal: bool
    var admins: seq<int>
    var botLang: string
    var lang: Language          // the module-level `lang.s`
    var authUsers: seq<int>
    var authChats: seq<int>
    var rclone: bool
    var uploadMode: string
    var antiSpam: string
    var botPublic: Option<string>
    var artPoster: Option<string>
    var playlistSort: Option<string>
    var disableSortLink: Option<string>
    var artistBatch: Option<string>
    var playlistConc: Option<string>
    var linkOptions: string
    var albumZip: Option<string>
    var playlistZip: Option<string>
    var artistZip: Option<string>
    var clients: seq<string>

    /** `BotSettings()`: the language, the authorised ids, the upload mode and the
        remaining values with their defaults.  The language and the upload mode are what
        `SetLanguage` and `CheckUploadMode` compute from a fresh object (rclone off). */
    constructor (cfg: Config, db: Db, disk: set<string>, fetch: string -> Option<int>,
                 available: seq<Language>, initialLang: Language)
      ensures canEnableTidal == TidalEnabled(cfg)
      ensures admins == cfg.admins && !deezer && !qobuz && !tidal && clients == []
      ensures botLang == LanguageFor(db)
      ensures lang == SelectLanguage(available, LanguageFor(db), initialLang)
      ensures authUsers == IdList(db, "AUTH_USERS") && authChats == IdList(db, "AUTH_CHATS")
      ensures rclone == RcloneAvailable(cfg, disk, fetch)
      ensures uploadMode == UploadModeFor(rclone, Stored(db, "UPLOAD_MODE"))
      ensures antiSpam == AntiSpamFor(Stored(db, "ANTI_SPAM"))
      ensures botPublic == GetValue(db, "BOT_PUBLIC") && artPoster == GetValue(db, "ART_POSTER")
      ensures playlistSort == GetValue(db, "PLAYLIST_SORT") && disableSortLink == GetValue(db, "PLAYLIST_LINK_DISABLE")
      ensures artistBatch == GetValue(db, "ARTIST_BATCH_UPLOAD") && playlistConc == GetValue(db, "PLAYLIST_CONCURRENT")
      ensures linkOptions == LinkOptionsFor(rclone, Stored(db, "RCLONE_LINK_OPTIONS"))
      ensures albumZip == GetValue(db, "ALBUM_ZIP") && playlistZip == GetValue(db, "PLAYLIST_ZIP")
      ensures artistZip == GetValue(db, "ARTIST_ZIP")
    {
      deezer := false;
      qobuz := false;
      tidal := false;
      canEnableTidal := TidalEnabled(cfg);
      admins := cfg.admins;
      botLang := LanguageFor(db);
      lang := SelectLanguage(available, LanguageFor(db), initialLang);
      authUsers := IdList(db, "AUTH_USERS");
      authChats := IdList(db, "AUTH_CHATS");
      rclone := RcloneAvailable(cfg, disk, fetch);
      uploadMode := UploadModeFor(RcloneAvailable(cfg, disk, fetch), Stored(db, "UPLOAD_MODE"));
      antiSpam := AntiSpamFor(Stored(db, "ANTI_SPAM"));
      botPublic := GetValue(db, "BOT_PUBLIC");
      artPoster := GetValue(db, "ART_POSTER");
      playlistSort := GetValue(db, "PLAYLIST_SORT");
      disableSortLink := GetValue(db, "PLAYLIST_LINK_DISABLE");
      artistBatch := GetValue(db, "ARTIST_BATCH_UPLOAD");
      playlistConc := GetValue(db, "PLAYLIST_CONCURRENT");
      linkOptions := LinkOptionsFor(RcloneAvailable(cfg, disk, fetch), Stored(db, "RCLONE_LINK_OPTIONS"));
      albumZip := GetValue(db, "ALBUM_ZIP");
      playlistZip := GetValue(db, "PLAYLIST_ZIP");
      artistZip := GetValue(db, "ARTIST_ZIP");
      clients := [];

    }

    /** `check_upload_mode`: rclone becomes available by one of its three routes (it is
        never switched off here), and the mode follows. */
    method CheckUploadMode(cfg: Config, db: Db, disk: set<string>, fetch: string -> Option<int>)
      modifies this`rclone, this`uploadMode
      ensures rclone == (old(rclone) || RcloneAvailable(cfg, disk, fetch))
      ensures uploadMode == UploadModeFor(rclone, Stored(db, "UPLOAD_MODE"))
    {
      if "rclone.conf" in disk {
        rclone := true;
      } else if Truthy(cfg.rcloneConfig) {
        if StartsWith(cfg.rcloneConfig.value, "http") {
          var status := fetch(cfg.rcloneConfig.value);
          if status == Some(200) {
            rclone := true;
          }
        } else {
          if cfg.rcloneConfig.value in disk {
            rclone := true;
          }
        }
      }
      var dbUpload := Stored(db, "UPLOAD_MODE");
      if rclone && dbUpload == Some("RCLONE") {
        uploadMode := "RCLONE";
      } else if dbUpload == Some("Telegram") || dbUpload == Some("Local") {
        uploadMode := dbUpload.value;
      } else {
        uploadMode := "Local";
      }
    }

    /** `set_language`: the stored language, 'en' by default, and the first translation
        with that tag; with none, `lang.s` stays as it was. */
    method SetLanguage(db: Db, available: seq<Language>)
      modifies this`botLang, this`lang
      ensures botLang == LanguageFor(db)
      ensures lang == SelectLanguage(available, botLang, old(lang))
    {
      var dbLang := Stored(db, "BOT_LANGUAGE");
      botLang := if Truthy(dbLang) then dbLang.value else "en";
      var i := 0;
      while i < |available|
        invariant 0 <= i <= |available|
        invariant forall j :: 0 <= j < i ==> available[j].tag != botLang
        invariant lang == old(lang)
      {
        if available[i].tag == botLang {
          lang := available[i];
          FirstLanguageAt(available, botLang, i);
          return;
        }
        i := i + 1;
      }
    }

    /** `login_tidal` up to the login call: with Tidal enabled and non-empty data the client
        is added; otherwise nothing changes. */
    method LoginTidal(cfg: Config, saved: Option<seq<byte>>, parse: seq<byte> -> Option<Json>)
      modifies this`clients, this`tidal
      ensures clients == old(clients) + (if TidalClientAdded(canEnableTidal, TidalData(cfg, saved, parse)) then ["tidal"] else [])
      ensures tidal == (old(tidal) || TidalClientAdded(canEnableTidal, TidalData(cfg, saved, parse)))
    {
      if !canEnableTidal {
        return;
      }
      var data := TidalData(cfg, saved, parse);
      if data.Err? {
        return;
      }
      if data.value.None? || data.value.value == map[] {
        return;
      }
      tidal := true;
      clients := clients + ["tidal"];
    }
  }

  lemma FirstLanguageAt(available: seq<Language>, tag: string, i: nat)
    requires i < |available| && available[i].tag == tag
    requires forall j :: 0 <= j < i ==> available[j].tag != tag
    ensures FirstLanguage(available, tag) == Some(i)
  {
    var r := FirstLanguage(available, tag);
    assert r.Some?;
    assert !(r.value < i) && !(r.value > i);
  }
}
