# macOS LoginItems: selection and assembly, in Dafny

This project models the part of the macos-loginitems library that the library itself
implements: the layer that sits between two foreign decoders and the caller.

- **Bookmark-blob selection** (`src/loginitems_plist.rs`, module `LoginItemsPlist`). A
  `backgrounditems.btm` file decodes to a top-level plist dictionary. `get_bookmarks` looks
  for the entry keyed `$objects` whose value is an array. `get_array_values` walks that array.
  It emits every Data element whatever its size. It also emits every Data value held directly
  by a Dictionary element, but only when it is at least 48 bytes long (a bookmark header is
  48 bytes). Both functions are modelled as methods with `for` loops, proved against the
  functions `Bookmarks` and `ArrayBlobs`.
- **LoginItem assembly** (`src/loginitems.rs`, module `LoginItems`). `parse_loginitems` turns
  each blob into one `LoginItemsData` record. It copies the decoded bookmark's fields, marks
  the record as not bundled, and fills in the target's file-system timestamps. It gives
  `Plist` when the file cannot be read, an empty result with an empty path when there are no
  blobs, and `Bookmark` as soon as one blob does not decode.
  `loginitems_bundled_apps_path` reads each directory entry whose path contains
  `loginitems`. Every key of that entry's plist dictionary that does not start with `version`
  becomes a bundled record, with the key as `appBinary` and the string value, if there is
  one, as `appId`.

Plist dictionaries are ordered sequences of `(key, value)` pairs, because the library walks
them in insertion order. Supporting modules: `Wrappers` (`Option`, `Result`), `Seqs` (the
`FlatMap` shape that every collecting loop follows, with its concatenation, in-place and
membership lemmas), `Strings` (`starts_with`, `contains`, `join`, and a `split` that is used
only to state that `join` loses nothing) and `PlistValue` (the decoded value tree).

The foreign code and all I/O reach the model as parameters:

- `plist::from_file` becomes a `Result<Dict, DecodeError>` argument (`file`) or a reader
  function `readPlist`;
- `macos_bookmarks::parser::parse_bookmark` becomes the function `parseBookmark`;
- `LoginItemsData::timestamps` (`Path::exists` plus `fs::metadata`) becomes the function
  `timestamps`, with `None` when the stat fails;
- `read_dir` becomes the `listing` argument. It is a failure or a sequence of entries, and
  each entry is either an error or the entry's path as a string.

One undecodable blob makes the whole `parse_loginitems` call fail with `Bookmark`, with no
partial results. The bookmark fields are copied exactly as the decoder returns them. An empty blob list gives an empty `path`, not the file's path.

## Model

| member | source | states |
|---|---|---|
| `LoginItemsPlist.GetArrayValues` | src/loginitems_plist.rs:30-76 | never fails; returns exactly `ArrayBlobs` of the array: the Data elements, plus the Data dictionary values of at least 48 bytes, in order |
| `LoginItemsPlist.GetBookmarks` | src/loginitems_plist.rs:9-27 | a read or decode failure is passed on; otherwise the blobs of the first `$objects` array, or the empty list when there is none |
| `LoginItemsPlist.ArrayBlobsAppend` | src/loginitems_plist.rs:31-37 | output order follows array order: the blobs of `a + b` are those of `a` followed by those of `b` |
| `LoginItemsPlist.ArrayBlobsAt` | src/loginitems_plist.rs:32-73 | element `i` contributes in place: a Data element whole, with no size check; a Dictionary element its nested blobs; any other element nothing, as if it were absent |
| `LoginItemsPlist.DictBlobsAt` | src/loginitems_plist.rs:48-66 | entry `j` of a dictionary element contributes its bytes in place if and only if it is Data of at least 48 bytes; otherwise it is skipped as if absent |
| `LoginItemsPlist.DictBlobsMembership` | src/loginitems_plist.rs:48-58 | a blob comes out of a dictionary element if and only if it is one of the element's Data values and is at least 48 bytes long |
| `LoginItemsPlist.ArrayBlobsMembership` | src/loginitems_plist.rs:30-76 | a blob is emitted if and only if it equals, byte for byte, a Data element or a Data value (of at least 48 bytes) of a Dictionary element; nothing deeper is looked at |
| `LoginItemsPlist.DictBlobsCount` | src/loginitems_plist.rs:48-66 | a dictionary element yields at most as many blobs as it has Data values |
| `LoginItemsPlist.ArrayBlobsCount` | src/loginitems_plist.rs:30-76 | the output holds at least one blob per top-level Data element and at most one per Data value at depth one or two |
| `LoginItemsPlist.ObjectsArrayFromValues` | src/loginitems_plist.rs:11-19 | the array searched is the first array among the values keyed `$objects`, in dictionary order |
| `LoginItemsPlist.OnlyObjectsExamined` | src/loginitems_plist.rs:11-14 | two plists whose `$objects` values agree give the same blobs, whatever their other keys |
| `LoginItemsPlist.NoObjectsArray` | src/loginitems_plist.rs:15-26 | no array is found if and only if no `$objects` entry holds an array, and the outcome is then `Ok` of the empty list |
| `LoginItemsPlist.ObjectsEntryDecides` | src/loginitems_plist.rs:10-26 | with unique keys, the `$objects` entry alone decides: its array's blobs, or the empty list when its value is not an array |
| `Strings.SplitJoin` | src/loginitems.rs:114 | joining non-empty path components that hold no "/" with "/" and splitting again gives the components back |
| `LoginItems.FromBookmark` | src/loginitems.rs:86-113 | the record built from a bookmark carries all the bookmark's fields unchanged, `isExecutable` as `hasExecutableFlag`; it is not bundled, has no app id or binary, and its timestamps are zero |
| `LoginItems.StatPath` | src/loginitems.rs:114-121 | the stat path is absolute (starts with "/"); a bookmark with no path components is statted at the root directory "/" |
| `LoginItems.StatPathComponents` | src/loginitems.rs:114 | for a non-empty list of path components none of which holds "/", the part of the stat path after the leading "/" splits back into exactly those components |
| `LoginItems.Record` | src/loginitems.rs:86-127 | the finished record keeps the bookmark's fields and the not-bundled defaults, and its timestamps are those of the stat, or zero when the stat failed |
| `LoginItems.ParseLoginItems` | src/loginitems.rs:53-134 | plist failure gives `Plist`; no blobs gives empty results with an empty path; any undecodable blob gives `Bookmark`; otherwise one record per blob, in blob order, each the `Record` of its bookmark and of the stat of its stat path, and the result carries the input path |
| `LoginItems.BundledItem` | src/loginitems.rs:178-217 | a bundled record is marked bundled, has the key as app binary, the string value (or the empty string when the value is not a string) as app id, no bookmark fields and zero timestamps |
| `LoginItems.LoginItemsBundledAppsPath` | src/loginitems.rs:136-234 | an unreadable directory gives `Path`; otherwise exactly `BundledApps`: one result per readable entry whose path contains "loginitems", in listing order |
| `LoginItems.BundledEntryAt` | src/loginitems.rs:177-218 | a key starting with "version" yields no record; any other key yields its record in place, between the records of the entries before and after it |
| `LoginItems.BundledRecordsMembership` | src/loginitems.rs:177-218 | a record is produced if and only if it is the record of an entry whose key does not start with "version" |
| `LoginItems.HasRecordsIff` | src/loginitems.rs:207-218 | a dictionary yields some record if and only if one of its keys does not start with "version" |
| `LoginItems.EntryPath` | src/loginitems.rs:174-229 | an entry whose plist decodes carries its path exactly when some key names an app; an entry whose plist fails contributes an empty result with an empty path |
| `LoginItems.EntriesResultsAt` | src/loginitems.rs:150-231 | directory entry `i` contributes one result in place when it was read and its path contains "loginitems", even if its plist fails, and nothing otherwise |
| `LoginItems.DockerShieldExample` | src/loginitems.rs:272-283 | a version entry followed by the Docker and Shield helper entries gives exactly two bundled records, in dictionary order, with the expected app binaries and app ids |

## Left out

- The binary plist decoder (`plist::from_file`) and the bookmark decoder
  (`macos_bookmarks::parser::parse_bookmark`): they are foreign crates. Their outcomes are
  parameters of the model.
- File-system access (`read_dir`, `Path::exists`, `fs::metadata` and the `st_*time`
  accessors): it is I/O. The directory listing and the stat outcome are parameters.
- `LoginItemsData::loginitem_apps_system`: it only calls `loginitems_bundled_apps_path` with the
  fixed directory `/var/db/com.apple.xpc.launchd/`.
- `src/parser.rs`, the per-user directory walk and thin wrappers: it is orchestration over
  fixed system paths. `examples/loginitems_parser.rs` (command-line handling and CSV/JSON
  output) is not part of this model either.
- The `None` branches after `as_data()` and `as_dictionary()` in `get_array_values`: they
  cannot be taken once the value has matched `Data` or `Dictionary`, so the model has no such
  path.
- The numeric value of the `f64` fields `creation` and `volumeCreation`: they are carried as
  64-bit patterns and never computed with. The default `0.0` is the all-zero pattern.
- The `Display` strings of `LoginItemError` and all logging (`error!`, `warn!`, `info!`): they
  do not affect any result.
