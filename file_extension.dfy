/**
 * The itag → container-extension table taken from youtube-dl's YouTube
 * extractor, and its first-match lookup `get_file_extension`.
 */
module FileExtension {
  import opened Prelude

  /** The table, in its order; the itags happen to be ascending. */
  const Pairs: seq<(int, string)> := [
    (5, "flv"), (6, "flv"), (13, "3gp"), (17, "3gp"), (18, "mp4"), (22, "mp4"),
    (34, "flv"), (35, "flv"), (36, "3gp"), (37, "mp4"), (38, "mp4"),
    (43, "webm"), (44, "webm"), (45, "webm"), (46, "webm"),
    (59, "mp4"), (78, "mp4"), (82, "mp4"), (83, "mp4"), (84, "mp4"), (85, "mp4"),
    (100, "webm"), (101, "webm"), (102, "webm")
  ]

  predicate HasKey(pairs: seq<(int, string)>, key: int)
  {
    exists i :: 0 <= i < |pairs| && pairs[i].0 == key
  }

  /** `iter().find(|item| item.0 == key).map(|item| item.1)`: the value of the first entry with that key. */
  function Find(pairs: seq<(int, string)>, key: int): (r: Option<string>)
    ensures r.None? <==> !HasKey(pairs, key)
    ensures r.Some? ==> exists i :: 0 <= i < |pairs| && pairs[i] == (key, r.value)
                                    && forall j :: 0 <= j < i ==> pairs[j].0 != key
  {
    if |pairs| == 0 then None
    else if pairs[0].0 == key then Some(pairs[0].1)
    else
      var r := Find(pairs[1..], key);
      assert HasKey(pairs[1..], key) ==> HasKey(pairs, key) by {
        if HasKey(pairs[1..], key) {
          var i :| 0 <= i < |pairs[1..]| && pairs[1..][i].0 == key;
          assert pairs[i + 1].0 == key;
        }
      }
      assert r.Some? ==> exists i :: 0 <= i < |pairs| && pairs[i] == (key, r.value)
                                     && forall j :: 0 <= j < i ==> pairs[j].0 != key by {
        if r.Some? {
          var i :| 0 <= i < |pairs[1..]| && pairs[1..][i] == (key, r.value)
                   && forall j :: 0 <= j < i ==> pairs[1..][j].0 != key;
          assert pairs[i + 1] == (key, r.value);
          assert forall j :: 0 <= j < i + 1 ==> pairs[j].0 != key by {
            forall j | 0 <= j < i + 1 ensures pairs[j].0 != key {
              if j > 0 { assert pairs[j] == pairs[1..][j - 1]; }
            }
          }
        }
      }
      r
  }

  /** `get_file_extension`: total over every itag, `None` for one the table lacks. */
  function GetFileExtension(itag: int): (r: Option<string>)
    ensures r.None? <==> !HasKey(Pairs, itag)
  {
    Find(Pairs, itag)
  }

  predicate StrictlyAscending(pairs: seq<(int, string)>)
  {
    forall i :: 0 <= i < |pairs| - 1 ==> pairs[i].0 < pairs[i + 1].0
  }

  predicate DistinctKeys(pairs: seq<(int, string)>)
  {
    forall i, j :: 0 <= i < |pairs| && 0 <= j < |pairs| && i != j ==> pairs[i].0 != pairs[j].0
  }

  lemma {:induction false} AscendingFrom(pairs: seq<(int, string)>, i: nat, j: nat)
    requires StrictlyAscending(pairs) && i < j < |pairs|
    ensures pairs[i].0 < pairs[j].0
    decreases j - i
  {
    if i + 1 < j {
      AscendingFrom(pairs, i + 1, j);
    }
  }

  lemma AscendingKeysAreDistinct(pairs: seq<(int, string)>)
    requires StrictlyAscending(pairs)
    ensures DistinctKeys(pairs)
  {
    forall i, j | 0 <= i < |pairs| && 0 <= j < |pairs| && i != j
      ensures pairs[i].0 != pairs[j].0
    {
      if i < j { AscendingFrom(pairs, i, j); } else { AscendingFrom(pairs, j, i); }
    }
  }

  /** No itag appears twice in the table, so the first match is the only match. */
  lemma PairsKeysDistinct()
    ensures DistinctKeys(Pairs)
  {
    assert StrictlyAscending(Pairs);
    AscendingKeysAreDistinct(Pairs);
  }

  /** With distinct keys, `Find` returns exactly the value paired with the key. */
  lemma FindUnique(pairs: seq<(int, string)>, key: int, value: string)
    requires DistinctKeys(pairs)
    ensures Find(pairs, key) == Some(value) <==> (key, value) in pairs
  {
    if (key, value) in pairs {
      var i :| 0 <= i < |pairs| && pairs[i] == (key, value);
      assert HasKey(pairs, key);
      var r := Find(pairs, key);
      var k :| 0 <= k < |pairs| && pairs[k] == (key, r.value) && forall j :: 0 <= j < k ==> pairs[j].0 != key;
      assert k == i;
    }
  }

  /** The lookup answers `Some(ext)` exactly for the entries of the table. */
  lemma GetFileExtensionIff(itag: int, ext: string)
    ensures GetFileExtension(itag) == Some(ext) <==> (itag, ext) in Pairs
  {
    PairsKeysDistinct();
    FindUnique(Pairs, itag, ext);
  }

  /** The itags of the `flv` group, and no others, map to `flv`. */
  lemma FlvItags(itag: int)
    ensures GetFileExtension(itag) == Some("flv") <==> itag in {5, 6, 34, 35}
  {
    GetFileExtensionIff(itag, "flv");
  }

  /** The itags of the `3gp` group, and no others, map to `3gp`. */
  lemma ThreeGpItags(itag: int)
    ensures GetFileExtension(itag) == Some("3gp") <==> itag in {13, 17, 36}
  {
    GetFileExtensionIff(itag, "3gp");
  }

  /** The itags of the `mp4` group, and no others, map to `mp4`. */
  lemma Mp4Itags(itag: int)
    ensures GetFileExtension(itag) == Some("mp4") <==> itag in {18, 22, 37, 38, 59, 78, 82, 83, 84, 85}
  {
    GetFileExtensionIff(itag, "mp4");
  }

  /** The itags of the `webm` group, and no others, map to `webm`. */
  lemma WebmItags(itag: int)
    ensures GetFileExtension(itag) == Some("webm") <==> itag in {43, 44, 45, 46, 100, 101, 102}
  {
    GetFileExtensionIff(itag, "webm");
  }

  /** Any answer is one of the four containers of the table. */
  lemma ExtensionIsKnownContainer(itag: int)
    ensures GetFileExtension(itag).Some? ==> GetFileExtension(itag).value in {"flv", "3gp", "mp4", "webm"}
  {
    var r := GetFileExtension(itag);
    if r.Some? {
      GetFileExtensionIff(itag, r.value);
    }
  }

  /** An itag outside the table, such as 140 (audio only), gives `None`. */
  lemma UnknownItag(itag: int)
    requires itag !in {5, 6, 13, 17, 18, 22, 34, 35, 36, 37, 38, 43, 44, 45, 46, 59, 78, 82, 83, 84, 85, 100, 101, 102}
    ensures GetFileExtension(itag) == None
  {
    if GetFileExtension(itag).Some? {
      ExtensionIsKnownContainer(itag);
      FlvItags(itag);
      ThreeGpItags(itag);
      Mp4Itags(itag);
      WebmItags(itag);
    }
  }
}
