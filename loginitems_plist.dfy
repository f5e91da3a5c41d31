/** Selecting the bookmark blobs out of a decoded `backgrounditems.btm` plist. */
module LoginItemsPlist {
  import opened Wrappers
  import opened PlistValue
  import opened Seqs

  /** The only top-level key whose value is searched for blobs. */
  const ObjectsKey := "$objects"

  /** A bookmark header is 48 bytes, so a blob nested in a dictionary must be at least this long. */
  const MinBookmarkSize := 48

  /** The blob a dictionary value contributes: its bytes when it is Data of at least
      `MinBookmarkSize` bytes, nothing otherwise. */
  function NestedBlob(v: Value): seq<seq<byte>>
  {
    if v.Data? && |v.bytes| >= MinBookmarkSize then [v.bytes] else []
  }

  /** The blob an entry of a dictionary element contributes. */
  function EntryBlob(entry: (string, Value)): seq<seq<byte>>
  {
    NestedBlob(entry.1)
  }

  /** The blobs found among the values of one dictionary element, in entry order. */
  function DictBlobs(entries: Dict): seq<seq<byte>>
  {
    FlatMap(EntryBlob, entries)
  }

  /** The blobs one element of the `$objects` array contributes. */
  function ElementBlobs(v: Value): seq<seq<byte>>
  {
    match v
    case Data(b) => [b]
    case Dictionary(entries) => DictBlobs(entries)
    case _ => []
  }

  /** The blobs of a whole `$objects` array, in array order. */
  function ArrayBlobs(items: seq<Value>): seq<seq<byte>>
  {
    FlatMap(ElementBlobs, items)
  }

  /** The first top-level entry keyed `$objects` whose value is an array, if any. */
  function ObjectsArray(d: Dict): Option<seq<Value>>
  {
    if |d| == 0 then None
    else if d[0].0 == ObjectsKey && d[0].1.Array? then Some(d[0].1.items)
    else ObjectsArray(d[1..])
  }

  /** What `get_bookmarks` yields for the outcome of reading the plist file. */
  function Bookmarks(file: Result<Dict, DecodeError>): Result<seq<seq<byte>>, DecodeError>
  {
    match file
    case Err(e) => Err(e)
    case Ok(d) =>
      match ObjectsArray(d)
      case None => Ok([])
      case Some(items) => Ok(ArrayBlobs(items))
  }

  /** `get_array_values`: walk the array and collect every Data element, and every Data value
      of at least `MinBookmarkSize` bytes held directly by a Dictionary element. It never fails. */
  method GetArrayValues(dataResults: seq<Value>) returns (r: Result<seq<seq<byte>>, DecodeError>)
    ensures r == Ok(ArrayBlobs(dataResults))
  {
    var bookmarkData: seq<seq<byte>> := [];
    for i := 0 to |dataResults|
      invariant bookmarkData == ArrayBlobs(dataResults[..i])
    {
      FlatMapStep(ElementBlobs, dataResults, i);
      match dataResults[i] {
        case Data(plistResults) =>
          bookmarkData := bookmarkData + [plistResults];
        case Dictionary(dict) =>
          for j := 0 to |dict|
            invariant bookmarkData == ArrayBlobs(dataResults[..i]) + DictBlobs(dict[..j])
          {
            FlatMapStep(EntryBlob, dict, j);
            var (_, dictData) := dict[j];
            match dictData {
              case Data(plistResults) =>
                if |plistResults| < MinBookmarkSize {
                  continue;
                }
                bookmarkData := bookmarkData + [plistResults];
              case _ =>
                continue;
            }
          }
          assert dict[..|dict|] == dict;
        case _ =>
          continue;
      }
    }
    assert dataResults[..|dataResults|] == dataResults;
    return Ok(bookmarkData);
  }

  /** `get_bookmarks`, given the outcome of `plist::from_file`: a read or decode failure is
      passed on; otherwise the first `$objects` array is searched, and a plist without one
      gives no blobs. */
  method GetBookmarks(file: Result<Dict, DecodeError>) returns (r: Result<seq<seq<byte>>, DecodeError>)
    ensures r == Bookmarks(file)
  {
    if file.Err? {
      return Err(file.error);
    }
    var loginItems := file.value;
    for i := 0 to |loginItems|
      invariant ObjectsArray(loginItems[i..]) == ObjectsArray(loginItems)
    {
      assert loginItems[i..][1..] == loginItems[i + 1..];
      var (key, value) := loginItems[i];
      if key != ObjectsKey {
        continue;
      }
      match value {
        case Array(valueArray) =>
          // `get_array_values(..)?` followed by `Ok(results)` hands back exactly what
          // get_array_values returned.
          r := GetArrayValues(valueArray);
          return;
        case _ =>
      }
    }
    return Ok([]);
  }

  // ----- What the blob selection emits -----

  /** Output order follows array order. */
  lemma ArrayBlobsAppend(a: seq<Value>, b: seq<Value>)
    ensures ArrayBlobs(a + b) == ArrayBlobs(a) + ArrayBlobs(b)
  {
    FlatMapAppend(ElementBlobs, a, b);
  }

  /** What element `i` of the array contributes, in place: a Data element is emitted whole
      whatever its size, a Dictionary element contributes its nested blobs, and any other
      element is skipped as if it were not there. */
  lemma ArrayBlobsAt(items: seq<Value>, i: nat)
    requires i < |items|
    ensures items[i].Data? ==>
      ArrayBlobs(items) == ArrayBlobs(items[..i]) + [items[i].bytes] + ArrayBlobs(items[i + 1..])
    ensures items[i].Dictionary? ==>
      ArrayBlobs(items) == ArrayBlobs(items[..i]) + DictBlobs(items[i].entries) + ArrayBlobs(items[i + 1..])
    ensures !items[i].Data? && !items[i].Dictionary? ==>
      ArrayBlobs(items) == ArrayBlobs(items[..i] + items[i + 1..])
  {
    FlatMapAt(ElementBlobs, items, i);
    if !items[i].Data? && !items[i].Dictionary? {
      FlatMapSkip(ElementBlobs, items, i);
    }
  }

  /** What entry `j` of a dictionary element contributes, in place: its bytes if and only if it
      is Data of at least `MinBookmarkSize` bytes; otherwise it is skipped as if not there. */
  lemma DictBlobsAt(entries: Dict, j: nat)
    requires j < |entries|
    ensures var v := entries[j].1;
      v.Data? && |v.bytes| >= MinBookmarkSize ==>
      DictBlobs(entries) == DictBlobs(entries[..j]) + [v.bytes] + DictBlobs(entries[j + 1..])
    ensures var v := entries[j].1;
      !(v.Data? && |v.bytes| >= MinBookmarkSize) ==>
      DictBlobs(entries) == DictBlobs(entries[..j] + entries[j + 1..])
  {
    FlatMapAt(EntryBlob, entries, j);
    var v := entries[j].1;
    if !(v.Data? && |v.bytes| >= MinBookmarkSize) {
      FlatMapSkip(EntryBlob, entries, j);
    }
  }

  /** Some entry of the dictionary has the value `Data(x)`. */
  predicate HoldsData(entries: Dict, x: seq<byte>)
  {
    exists j :: 0 <= j < |entries| && entries[j].1 == Data(x)
  }

  /** A blob comes out of a dictionary element if and only if it is the value of one of its
      entries and is at least `MinBookmarkSize` bytes long. */
  lemma DictBlobsMembership(entries: Dict, x: seq<byte>)
    ensures x in DictBlobs(entries) <==> |x| >= MinBookmarkSize && HoldsData(entries, x)
  {
    FlatMapMembership(EntryBlob, entries, x);
  }

  /** Every emitted blob is byte-for-byte a Data value of the array, found either as an
      element or as a value of a Dictionary element (and then at least `MinBookmarkSize`
      bytes long), and every such value is emitted: nothing deeper is ever looked at. */
  lemma ArrayBlobsMembership(items: seq<Value>, x: seq<byte>)
    ensures x in ArrayBlobs(items) <==>
      exists i :: 0 <= i < |items| &&
        (items[i] == Data(x) ||
         (items[i].Dictionary? && |x| >= MinBookmarkSize && HoldsData(items[i].entries, x)))
  {
    FlatMapMembership(ElementBlobs, items, x);
    forall i | 0 <= i < |items| && items[i].Dictionary? {
      DictBlobsMembership(items[i].entries, x);
    }
  }

  /** The number of Data values one element holds at the first two levels. */
  function ElementDataCount(v: Value): nat
  {
    match v
    case Data(_) => 1
    case Dictionary(entries) => DictDataCount(entries)
    case _ => 0
  }

  /** The number of entries of a dictionary whose value is Data. */
  function DictDataCount(entries: Dict): nat
  {
    if |entries| == 0 then 0
    else DictDataCount(entries[..|entries| - 1]) + (if entries[|entries| - 1].1.Data? then 1 else 0)
  }

  /** The number of Data values at depth one plus depth two of an array. */
  function DataCount(items: seq<Value>): nat
  {
    if |items| == 0 then 0
    else DataCount(items[..|items| - 1]) + ElementDataCount(items[|items| - 1])
  }

  /** The number of Data elements directly in an array. */
  function TopDataCount(items: seq<Value>): nat
  {
    if |items| == 0 then 0
    else TopDataCount(items[..|items| - 1]) + (if items[|items| - 1].Data? then 1 else 0)
  }

  lemma {:induction false} DictBlobsCount(entries: Dict)
    ensures |DictBlobs(entries)| <= DictDataCount(entries)
  {
    if |entries| > 0 {
      DictBlobsCount(entries[..|entries| - 1]);
      FlatMapStep(EntryBlob, entries, |entries| - 1);
      assert entries[..|entries|] == entries;
    }
  }

  /** At least every top-level Data element and at most every Data value at depth one or two
      is emitted. */
  lemma {:induction false} ArrayBlobsCount(items: seq<Value>)
    ensures TopDataCount(items) <= |ArrayBlobs(items)| <= DataCount(items)
  {
    if |items| > 0 {
      var last := items[|items| - 1];
      ArrayBlobsCount(items[..|items| - 1]);
      FlatMapStep(ElementBlobs, items, |items| - 1);
      assert items[..|items|] == items;
      if last.Dictionary? {
        DictBlobsCount(last.entries);
      }
    }
  }

  // ----- Which top-level entry is examined -----

  /** The values of the top-level entries keyed `$objects`, in order. */
  function ObjectsValues(d: Dict): seq<Value>
  {
    if |d| == 0 then []
    else (if d[0].0 == ObjectsKey then [d[0].1] else []) + ObjectsValues(d[1..])
  }

  /** The items of the first array among `vs`, if any. */
  function FirstArray(vs: seq<Value>): Option<seq<Value>>
  {
    if |vs| == 0 then None
    else if vs[0].Array? then Some(vs[0].items)
    else FirstArray(vs[1..])
  }

  lemma {:induction false} ObjectsArrayFromValues(d: Dict)
    ensures ObjectsArray(d) == FirstArray(ObjectsValues(d))
  {
    if |d| > 0 {
      var rest := ObjectsValues(d[1..]);
      ObjectsArrayFromValues(d[1..]);
      if d[0].0 == ObjectsKey {
        assert ObjectsValues(d) == [d[0].1] + rest;
        assert ([d[0].1] + rest)[0] == d[0].1;
        assert ([d[0].1] + rest)[1..] == rest;
      } else {
        assert ObjectsValues(d) == rest;
      }
    }
  }

  /** Only the values under `$objects` matter: two plists that agree on them yield the same
      blobs, whatever their other top-level keys. */
  lemma OnlyObjectsExamined(d1: Dict, d2: Dict)
    requires ObjectsValues(d1) == ObjectsValues(d2)
    ensures Bookmarks(Ok(d1)) == Bookmarks(Ok(d2))
  {
    ObjectsArrayFromValues(d1);
    ObjectsArrayFromValues(d2);
  }

  /** A plist holds no `$objects` array exactly when the search finds none, and it then
      yields the empty blob list rather than an error. */
  lemma {:induction false} NoObjectsArray(d: Dict)
    ensures ObjectsArray(d).None? <==>
      forall i :: 0 <= i < |d| && d[i].0 == ObjectsKey ==> !d[i].1.Array?
    ensures ObjectsArray(d).None? ==> Bookmarks(Ok(d)) == Ok([])
  {
    if |d| > 0 {
      NoObjectsArray(d[1..]);
      forall i | 1 <= i < |d| ensures d[1..][i - 1] == d[i] { }
    }
  }

  /** No key occurs twice, as in any dictionary the plist decoder produces. */
  predicate UniqueKeys(d: Dict)
  {
    forall i, j :: 0 <= i < j < |d| ==> d[i].0 != d[j].0
  }

  /** With unique keys, the `$objects` entry alone decides the outcome: its array's blobs, or
      no blobs when its value is not an array. */
  lemma {:induction false} ObjectsEntryDecides(d: Dict, i: nat)
    requires UniqueKeys(d)
    requires i < |d| && d[i].0 == ObjectsKey
    ensures Bookmarks(Ok(d)) == if d[i].1.Array? then Ok(ArrayBlobs(d[i].1.items)) else Ok([])
  {
    if i == 0 {
      if !d[0].1.Array? {
        NoObjectsArray(d[1..]);
        forall k | 0 <= k < |d[1..]| ensures d[1..][k].0 != ObjectsKey {
          assert d[1..][k] == d[k + 1];
        }
      }
    } else {
      assert UniqueKeys(d[1..]) by {
        forall a, b | 0 <= a < b < |d[1..]| ensures d[1..][a].0 != d[1..][b].0 {
          assert d[1..][a] == d[a + 1] && d[1..][b] == d[b + 1];
        }
      }
      assert d[1..][i - 1] == d[i];
      ObjectsEntryDecides(d[1..], i - 1);
    }
  }
}
