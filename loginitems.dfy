/** Assembling LoginItem records: from the bookmark blobs of `backgrounditems.btm`, and from
    the key/app-id dictionaries of the bundled-app `loginitems` plists. The bookmark decoder,
    the plist decoder and the file system are not part of this model; their outcomes arrive
    as parameters. */
module LoginItems {
  import opened Wrappers
  import opened Strings
  import opened PlistValue
  import opened Seqs
  import LoginItemsPlist

  type i32 = x: int | -0x8000_0000 <= x < 0x8000_0000
  type i64 = x: int | -0x8000_0000_0000_0000 <= x < 0x8000_0000_0000_0000
  type u64 = x: int | 0 <= x < 0x1_0000_0000_0000_0000

  /** A 64-bit float carried as its bit pattern; the model never computes with it. */
  datatype F64 = F64(bits: bv64)

  /** The bit pattern of `0.0`. */
  const PositiveZero := F64(0)

  datatype LoginItemError = Path | Plist | Bookmark

  /** The decoded bookmark fields the assembler reads. */
  datatype BookmarkData = BookmarkData(
    path: seq<string>,
    cnidPath: seq<i64>,
    creation: F64,
    volumePath: string,
    volumeUrl: string,
    volumeName: string,
    volumeUuid: string,
    volumeSize: i64,
    volumeCreation: F64,
    volumeFlag: seq<u64>,
    volumeRoot: bool,
    localizedName: string,
    securityExtension: string,
    targetFlags: seq<u64>,
    username: string,
    folderIndex: i64,
    uid: i32,
    creationOptions: i32,
    isExecutable: bool)

  /** A failure of the bookmark decoder, with its detail left opaque. */
  datatype BookmarkError = BookmarkError(detail: string)

  /** The four file-system timestamps of a target (`st_birthtime`, `st_mtime`, `st_atime`,
      `st_ctime`). */
  datatype Metadata = Metadata(birthtime: i64, mtime: i64, atime: i64, ctime: i64)

  /** One login item. */
  datatype LoginItemsData = LoginItemsData(
    path: seq<string>,
    cnidPath: seq<i64>,
    creation: F64,
    volumePath: string,
    volumeUrl: string,
    volumeName: string,
    volumeUuid: string,
    volumeSize: i64,
    volumeCreation: F64,
    volumeFlag: seq<u64>,
    volumeRoot: bool,
    localizedName: string,
    securityExtension: string,
    targetFlags: seq<u64>,
    username: string,
    folderIndex: i64,
    uid: i32,
    creationOptions: i32,
    isBundled: bool,
    appId: string,
    appBinary: string,
    hasExecutableFlag: bool,
    createdTime: i64,
    modifiedTime: i64,
    accessedTime: i64,
    changedTime: i64)

  /** The login items of one artifact file and the file's path. */
  datatype LoginItemsResults = LoginItemsResults(results: seq<LoginItemsData>, path: string)

  /** The bookmark fields a record carries, read back out of it (`hasExecutableFlag` is the
      bookmark's `isExecutable`). */
  function BookmarkFields(d: LoginItemsData): BookmarkData
  {
    BookmarkData(d.path, d.cnidPath, d.creation, d.volumePath, d.volumeUrl, d.volumeName,
      d.volumeUuid, d.volumeSize, d.volumeCreation, d.volumeFlag, d.volumeRoot,
      d.localizedName, d.securityExtension, d.targetFlags, d.username, d.folderIndex, d.uid,
      d.creationOptions, d.hasExecutableFlag)
  }

  /** The timestamps a record carries. */
  function Timestamps(d: LoginItemsData): Metadata
  {
    Metadata(d.createdTime, d.modifiedTime, d.accessedTime, d.changedTime)
  }

  /** A bookmark with every field empty, false or zero. */
  const EmptyBookmark := BookmarkData([], [], PositiveZero, "", "", "", "", 0, PositiveZero,
    [], false, "", "", [], "", 0, 0, 0, false)

  const ZeroTimestamps := Metadata(0, 0, 0, 0)

  // ----- backgrounditems.btm: one record per bookmark blob -----

  /** The record built from a decoded bookmark before its target is stat'ed: every bookmark
      field copied, not bundled, no app id or binary, zero timestamps. */
  function FromBookmark(b: BookmarkData): (d: LoginItemsData)
    ensures BookmarkFields(d) == b
    ensures !d.isBundled && d.appId == "" && d.appBinary == ""
    ensures Timestamps(d) == ZeroTimestamps
  {
    LoginItemsData(b.path, b.cnidPath, b.creation, b.volumePath, b.volumeUrl, b.volumeName,
      b.volumeUuid, b.volumeSize, b.volumeCreation, b.volumeFlag, b.volumeRoot,
      b.localizedName, b.securityExtension, b.targetFlags, b.username, b.folderIndex, b.uid,
      b.creationOptions, false, "", "", b.isExecutable, 0, 0, 0, 0)
  }

  /** The path handed to `fs::metadata` for a bookmark's target: "/" and the path components
      joined with "/". It is always absolute, and the root directory when there are no
      components. */
  function StatPath(components: seq<string>): (r: string)
    ensures |r| > 0 && r[0] == '/'
    ensures components == [] ==> r == "/"
  {
    "/" + Join(components, "/")
  }

  /** For a non-empty path whose components hold no "/", the stat path after its leading "/"
      splits back into exactly those components. */
  lemma StatPathComponents(components: seq<string>)
    requires |components| > 0
    requires forall i :: 0 <= i < |components| ==> '/' !in components[i]
    ensures Split(StatPath(components)[1..], '/') == components
  {
    assert StatPath(components)[1..] == Join(components, "/");
    SplitJoin(components, '/');
  }

  /** The finished record for one decoded bookmark, given what `fs::metadata` reported for its
      stat path: the bookmark's fields unchanged, not bundled, and the target's timestamps, or
      zeros when the stat failed. */
  function Record(b: BookmarkData, meta: Option<Metadata>): (d: LoginItemsData)
    ensures BookmarkFields(d) == b
    ensures !d.isBundled && d.appId == "" && d.appBinary == ""
    ensures Timestamps(d) == if meta.Some? then meta.value else ZeroTimestamps
  {
    var d := FromBookmark(b);
    match meta
    case None => d
    case Some(m) =>
      d.(createdTime := m.birthtime, modifiedTime := m.mtime, accessedTime := m.atime,
         changedTime := m.ctime)
  }

  /** `LoginItemsData::parse_loginitems`, given the outcome of reading the plist at `path`, the
      bookmark decoder and the file-system stat of a path:
      a plist failure is `Plist`; no blobs is an empty result with an empty path; a blob the
      decoder rejects is `Bookmark`, with no partial results; otherwise one record per blob, in
      blob order, and the result carries `path`. */
  method ParseLoginItems(
    path: string,
    file: Result<Dict, DecodeError>,
    parseBookmark: seq<byte> -> Result<BookmarkData, BookmarkError>,
    timestamps: string -> Option<Metadata>)
    returns (r: Result<LoginItemsResults, LoginItemError>)
    ensures LoginItemsPlist.Bookmarks(file).Err? ==> r == Err(Plist)
    ensures LoginItemsPlist.Bookmarks(file) == Ok([]) ==> r == Ok(LoginItemsResults([], ""))
    ensures LoginItemsPlist.Bookmarks(file).Ok? ==>
      var blobs := LoginItemsPlist.Bookmarks(file).value;
      (exists i :: 0 <= i < |blobs| && parseBookmark(blobs[i]).Err?) ==> r == Err(Bookmark)
    ensures LoginItemsPlist.Bookmarks(file).Ok? ==>
      var blobs := LoginItemsPlist.Bookmarks(file).value;
      blobs != [] && (forall i :: 0 <= i < |blobs| ==> parseBookmark(blobs[i]).Ok?) ==>
        && r.Ok?
        && r.value.path == path
        && |r.value.results| == |blobs|
        && forall i :: 0 <= i < |blobs| ==>
             var b := parseBookmark(blobs[i]).value;
             r.value.results[i] == Record(b, timestamps(StatPath(b.path)))
  {
    var loginitemsResults := LoginItemsPlist.GetBookmarks(file);
    if loginitemsResults.Err? {
      return Err(Plist);
    }
    var loginitemsData := loginitemsResults.value;
    if |loginitemsData| == 0 {
      return Ok(LoginItemsResults([], ""));
    }
    var results: seq<LoginItemsData> := [];
    for i := 0 to |loginitemsData|
      invariant |results| == i
      invariant forall k :: 0 <= k < i ==> parseBookmark(loginitemsData[k]).Ok?
      invariant forall k :: 0 <= k < i ==>
        var b := parseBookmark(loginitemsData[k]).value;
        results[k] == Record(b, timestamps(StatPath(b.path)))
    {
      var parsed := parseBookmark(loginitemsData[i]);
      if parsed.Err? {
        return Err(Bookmark);
      }
      var bookmark := parsed.value;
      var loginitemData := FromBookmark(bookmark);
      var appPath := StatPath(loginitemData.path);
      var metadataResults := timestamps(appPath);
      match metadataResults {
        case Some(metadata) =>
          loginitemData := loginitemData.(createdTime := metadata.birthtime,
            modifiedTime := metadata.mtime, accessedTime := metadata.atime,
            changedTime := metadata.ctime);
        case None =>
      }
      results := results + [loginitemData];
    }
    return Ok(LoginItemsResults(results, path));
  }

  // ----- bundled-app loginitems plists: one record per app key -----

  /** A failure to list a directory or to read one of its entries, detail left opaque. */
  datatype IoError = IoError(detail: string)

  /** Keys with this prefix describe the plist itself, not an app. */
  const VersionPrefix := "version"

  /** Only directory entries whose path holds this are read. */
  const LoginItemsMarker := "loginitems"

  predicate IsVersionKey(key: string)
  {
    StartsWith(key, VersionPrefix)
  }

  /** The record the bundled-app reader starts from for every key: bundled, and every other
      field empty, false or zero. */
  const BundledTemplate := LoginItemsData([], [], PositiveZero, "", "", "", "", 0,
    PositiveZero, [], false, "", "", [], "", 0, 0, 0, true, "", "", false, 0, 0, 0, 0)

  /** The record for one app key: bundled, the key as the app binary, the value as the app id
      when it is a string and the empty id otherwise; no bookmark fields, zero timestamps. */
  function BundledItem(key: string, value: Value): (d: LoginItemsData)
    ensures d.isBundled && d.appBinary == key
    ensures value.String? ==> d.appId == value.text
    ensures !value.String? ==> d.appId == ""
    ensures BookmarkFields(d) == EmptyBookmark && Timestamps(d) == ZeroTimestamps
  {
    var d := BundledTemplate;
    var d := if value.String? then d.(appId := value.text) else d;
    d.(appBinary := key)
  }

  /** What one dictionary entry yields: nothing for a version key, its record otherwise. */
  function RecordFor(entry: (string, Value)): seq<LoginItemsData>
  {
    if IsVersionKey(entry.0) then [] else [BundledItem(entry.0, entry.1)]
  }

  /** The records a bundled-app dictionary yields, in dictionary order. */
  function BundledRecords(d: Dict): seq<LoginItemsData>
  {
    FlatMap(RecordFor, d)
  }

  /** What one accepted directory entry at `entryPath` contributes, given the outcome of reading
      its plist: its records, and its path only when there is at least one record. */
  function EntryResult(entryPath: string, plist: Result<Dict, DecodeError>): LoginItemsResults
  {
    match plist
    case Err(_) => LoginItemsResults([], "")
    case Ok(d) =>
      var records := BundledRecords(d);
      LoginItemsResults(records, if |records| == 0 then "" else entryPath)
  }

  /** A directory entry that was read and whose path holds `LoginItemsMarker`. */
  predicate Accepted(entry: Result<string, IoError>)
  {
    entry.Ok? && Contains(entry.value, LoginItemsMarker)
  }

  /** What one directory entry yields: one result if it is accepted, nothing otherwise. */
  function Contribution(readPlist: string -> Result<Dict, DecodeError>)
    : Result<string, IoError> -> seq<LoginItemsResults>
  {
    entry => if Accepted(entry) then [EntryResult(entry.value, readPlist(entry.value))] else []
  }

  /** One result per accepted entry, in listing order. */
  function EntriesResults(entries: seq<Result<string, IoError>>,
                          readPlist: string -> Result<Dict, DecodeError>): seq<LoginItemsResults>
  {
    FlatMap(Contribution(readPlist), entries)
  }

  /** What `loginitems_bundled_apps_path` yields for a directory listing. */
  function BundledApps(listing: Result<seq<Result<string, IoError>>, IoError>,
                       readPlist: string -> Result<Dict, DecodeError>)
    : Result<seq<LoginItemsResults>, LoginItemError>
  {
    match listing
    case Err(_) => Err(Path)
    case Ok(entries) => Ok(EntriesResults(entries, readPlist))
  }

  /** `LoginItemsData::loginitems_bundled_apps_path`, given the directory listing and the
      plist reader: an unreadable directory is `Path`; entries that cannot be read or whose
      path lacks "loginitems" are skipped; every other entry contributes one result, also when
      its plist does not decode. */
  method LoginItemsBundledAppsPath(
    listing: Result<seq<Result<string, IoError>>, IoError>,
    readPlist: string -> Result<Dict, DecodeError>)
    returns (r: Result<seq<LoginItemsResults>, LoginItemError>)
    ensures r == BundledApps(listing, readPlist)
  {
    if listing.Err? {
      return Err(Path);
    }
    var readDir := listing.value;
    var loginitemsVec: seq<LoginItemsResults> := [];
    for i := 0 to |readDir|
      invariant loginitemsVec == EntriesResults(readDir[..i], readPlist)
    {
      FlatMapStep(Contribution(readPlist), readDir, i);
      assert Contribution(readPlist)(readDir[i])
        == if Accepted(readDir[i]) then [EntryResult(readDir[i].value, readPlist(readDir[i].value))] else [];
      var loginitems := LoginItemsResults([], "");
      var entryResult := readDir[i];
      if entryResult.Err? {
        continue;
      }
      var path := entryResult.value;
      if !Contains(path, LoginItemsMarker) {
        continue;
      }
      var loginitemsPlist := readPlist(path);
      match loginitemsPlist {
        case Ok(data) =>
          for j := 0 to |data|
            invariant loginitems.results == BundledRecords(data[..j])
            invariant loginitems.path == if |loginitems.results| == 0 then "" else path
          {
            FlatMapStep(RecordFor, data, j);
            var (key, value) := data[j];
            var loginitemsData := BundledTemplate;
            if IsVersionKey(key) {
              continue;
            }
            if value.String? {
              loginitemsData := loginitemsData.(appId := value.text);
            }
            loginitemsData := loginitemsData.(appBinary := key);
            loginitems := loginitems.(results := loginitems.results + [loginitemsData]);
            loginitems := loginitems.(path := path);
          }
          assert data[..|data|] == data;
        case Err(_) =>
      }
      assert loginitems == EntryResult(path, loginitemsPlist);
      loginitemsVec := loginitemsVec + [loginitems];
    }
    assert readDir[..|readDir|] == readDir;
    return Ok(loginitemsVec);
  }

  // ----- What the bundled-app reader emits -----

  /** The rule for one dictionary entry, in place: a version key yields no record, any other
      key yields its record between those of the entries before and after it. */
  lemma BundledEntryAt(before: Dict, key: string, value: Value, after: Dict)
    ensures IsVersionKey(key) ==>
      BundledRecords(before + [(key, value)] + after) == BundledRecords(before + after)
    ensures !IsVersionKey(key) ==>
      BundledRecords(before + [(key, value)] + after)
        == BundledRecords(before) + [BundledItem(key, value)] + BundledRecords(after)
  {
    var d := before + [(key, value)] + after;
    var i := |before|;
    assert d[..i] == before && d[i] == (key, value) && d[i + 1..] == after;
    assert d[..i] + d[i + 1..] == before + after;
    FlatMapAt(RecordFor, d, i);
    if IsVersionKey(key) {
      FlatMapSkip(RecordFor, d, i);
    }
  }

  /** A record comes out of a bundled-app dictionary if and only if it is the record of one of
      its entries whose key does not start with "version". */
  lemma BundledRecordsMembership(d: Dict, r: LoginItemsData)
    ensures r in BundledRecords(d) <==>
      exists j :: 0 <= j < |d| && !IsVersionKey(d[j].0) && r == BundledItem(d[j].0, d[j].1)
  {
    FlatMapMembership(RecordFor, d, r);
  }

  /** Some key of the dictionary names an app. */
  predicate HasAppKey(d: Dict)
  {
    exists j :: 0 <= j < |d| && !IsVersionKey(d[j].0)
  }

  /** A dictionary yields some record exactly when one of its keys names an app. */
  lemma HasRecordsIff(d: Dict)
    ensures |BundledRecords(d)| > 0 <==> HasAppKey(d)
  {
    if HasAppKey(d) {
      var j :| 0 <= j < |d| && !IsVersionKey(d[j].0);
      BundledRecordsMembership(d, BundledItem(d[j].0, d[j].1));
    }
    if |BundledRecords(d)| > 0 {
      BundledRecordsMembership(d, BundledRecords(d)[0]);
    }
  }

  /** An accepted entry whose plist decodes carries its path exactly when some key names an
      app; one whose plist does not decode contributes an empty result. */
  lemma EntryPath(entryPath: string, plist: Result<Dict, DecodeError>)
    ensures plist.Err? ==> EntryResult(entryPath, plist) == LoginItemsResults([], "")
    ensures plist.Ok? ==>
      EntryResult(entryPath, plist).path == if HasAppKey(plist.value) then entryPath else ""
  {
    if plist.Ok? {
      HasRecordsIff(plist.value);
    }
  }

  /** What directory entry `i` contributes, in place: one result if it was read and its path
      holds "loginitems" (whether or not its plist decodes), nothing otherwise. */
  lemma EntriesResultsAt(entries: seq<Result<string, IoError>>, i: nat,
                         readPlist: string -> Result<Dict, DecodeError>)
    requires i < |entries|
    ensures Accepted(entries[i]) ==>
      var p := entries[i].value;
      EntriesResults(entries, readPlist)
        == EntriesResults(entries[..i], readPlist) + [EntryResult(p, readPlist(p))]
           + EntriesResults(entries[i + 1..], readPlist)
    ensures !Accepted(entries[i]) ==>
      EntriesResults(entries, readPlist) == EntriesResults(entries[..i] + entries[i + 1..], readPlist)
  {
    FlatMapAt(Contribution(readPlist), entries, i);
    if !Accepted(entries[i]) {
      FlatMapSkip(Contribution(readPlist), entries, i);
    }
  }

  /** The bundled Docker and Shield helpers of the repository's fixture: a version entry and
      two app entries give exactly two bundled records, in dictionary order. */
  lemma DockerShieldExample()
    ensures var d := [("version", Other),
                      ("com.docker.helper", String("com.docker.docker")),
                      ("com.csaba.fitzl.shield.ShieldHelper", String("com.csaba.fitzl.shield"))];
      var rs := BundledRecords(d);
      && |rs| == 2
      && rs[0].isBundled && rs[0].appBinary == "com.docker.helper"
      && rs[0].appId == "com.docker.docker"
      && rs[1].isBundled && rs[1].appBinary == "com.csaba.fitzl.shield.ShieldHelper"
      && rs[1].appId == "com.csaba.fitzl.shield"
  {
    var v: (string, Value) := ("version", Other);
    var a: (string, Value) := ("com.docker.helper", String("com.docker.docker"));
    var b: (string, Value) := ("com.csaba.fitzl.shield.ShieldHelper", String("com.csaba.fitzl.shield"));
    assert IsVersionKey(v.0) by { assert v.0[..|VersionPrefix|] == VersionPrefix; }
    assert !IsVersionKey(a.0) by { assert a.0[..|VersionPrefix|][0] != VersionPrefix[0]; }
    assert !IsVersionKey(b.0) by { assert b.0[..|VersionPrefix|][0] != VersionPrefix[0]; }
    var d := [v, a, b];
    assert d[..2] == [v, a] && [v, a][..1] == [v];
    assert [v][..0] == [];
    assert RecordFor(v) == [];
    assert FlatMap(RecordFor, [v][..0]) == [];
    assert FlatMap(RecordFor, [v]) == FlatMap(RecordFor, [v][..0]) + RecordFor(v);
    assert BundledRecords([v]) == [];
    assert BundledRecords([v, a]) == [BundledItem(a.0, a.1)];
    assert BundledRecords(d) == [BundledItem(a.0, a.1), BundledItem(b.0, b.1)];
  }
}
