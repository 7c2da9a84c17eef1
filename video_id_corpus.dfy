/**
 * The URLs the repository's own tests feed to `extract_video_id`, each of
 * which yields `dQw4w9WgXcQ`. Long URLs are written as concatenations of
 * their parts: the text before the marker, the marker, the id, the rest.
 */
module VideoIdCorpus {
  import opened Prelude
  import opened VideoId

  const Id: string := "dQw4w9WgXcQ"

  /** A character that can neither end the line nor start a marker. */
  predicate PlainChar(c: char)
  {
    c != '\n' && c != '/' && c != 'v'
  }

  /** Text after the id in which no marker can start. */
  predicate PlainRest(t: string)
  {
    forall i :: 0 <= i < |t| ==> PlainChar(t[i])
  }

  lemma PlainRestChars(t: string)
    requires PlainRest(t)
    ensures '\n' !in t && '/' !in t && 'v' !in t
  {
  }

  /** The `youtube_gdata_player` query tail of the test list, after `&`. */
  lemma AmpersandGdataTail()
    ensures PlainRest("&feature=youtube_gdata_player")
  {
  }

  /** The same tail after `?`. */
  lemma QuestionGdataTail()
    ensures PlainRest("?feature=youtube_gdata_player")
  {
  }

  /**
   * A URL made of `a`, a marker `m` matched at `|a|`, the id and a rest with
   * no `/` and no `v` yields the id.
   */
  lemma ExtractsId(a: string, m: string, rest: string)
    requires MarkerAt(a + m + (Id + rest), |a|) == Some(|m|)
    requires forall q :: |a| < q < |a| + |m| ==> MarkerAt(a + m + (Id + rest), q).None?
    requires '\n' !in a + m && PlainRest(rest)
    requires rest == [] || IsDelimiter(rest[0])
    ensures ExtractVideoId(a + m + Id + rest) == Ok(Id)
  {
    PlainRestChars(rest);
    var s := a + m + Id + rest;
    assert s == a + m + (Id + rest);
    var k0 := |a| + |m|;
    assert s[k0..] == Id + rest;
    CharAbsentFrom(s, k0, '/');
    CharAbsentFrom(s, k0, 'v');
    NoMarkerFrom(s, k0);
    ExtractAfterMarker(a, m, Id, rest);
  }

  /** As `ExtractsId`, for a URL that ends with the id. */
  lemma ExtractsIdAtEnd(a: string, m: string)
    requires MarkerAt(a + m + (Id + ""), |a|) == Some(|m|)
    requires forall q :: |a| < q < |a| + |m| ==> MarkerAt(a + m + (Id + ""), q).None?
    requires '\n' !in a + m
    ensures ExtractVideoId(a + m + Id) == Ok(Id)
  {
    ExtractsId(a, m, "");
    assert a + m + Id + "" == a + m + Id;
  }

  /** As `ExtractsId`, for a rest whose only `v` starts `vid`, which is not a query key. */
  lemma ExtractsIdBeforeVid(a: string, m: string, r1: string, r2: string)
    requires MarkerAt(a + m + (Id + (r1 + "vid" + r2)), |a|) == Some(|m|)
    requires forall q :: |a| < q < |a| + |m| ==> MarkerAt(a + m + (Id + (r1 + "vid" + r2)), q).None?
    requires '\n' !in a + m && PlainRest(r1) && PlainRest(r2)
    requires r1 != [] && IsDelimiter(r1[0])
    ensures ExtractVideoId(a + m + Id + (r1 + "vid" + r2)) == Ok(Id)
  {
    VidRestChars(r1, r2);
    var rest := r1 + "vid" + r2;
    var s := a + m + Id + rest;
    assert s == a + m + (Id + rest);
    var k0 := |a| + |m|;
    var j := k0 + |Id| + |r1|;
    assert s[k0..] == Id + rest;
    assert s[k0..j] == Id + r1;
    assert s[j..j + 3] == "vid";
    assert s[j + 1..] == "id" + r2;
    VidStartsNoMarker(s, k0, j);
    ExtractAfterMarker(a, m, Id, rest);
  }

  /** The characters around a `vid` between two plain pieces. */
  lemma VidRestChars(r1: string, r2: string)
    requires PlainRest(r1) && PlainRest(r2)
    ensures var x := Id + (r1 + "vid" + r2);
      '\n' !in x && '/' !in x && 'v' !in Id + r1 && 'v' !in "id" + r2
  {
    PlainRestChars(r1);
    PlainRestChars(r2);
  }

  /** No marker starts after `k0` when the text from there has no `/` and its only `v` starts `vid` at `j`. */
  lemma VidStartsNoMarker(s: string, k0: nat, j: nat)
    requires k0 <= j && j + 3 <= |s| && s[j..j + 3] == "vid"
    requires '/' !in s[k0..] && 'v' !in s[k0..j] && 'v' !in s[j + 1..]
    ensures forall q :: k0 <= q ==> MarkerAt(s, q).None?
  {
    CharAbsentFrom(s, k0, '/');
    assert s[..j][k0..] == s[k0..j];
    CharAbsentFrom(s[..j], k0, 'v');
    CharAbsentFrom(s, j + 1, 'v');
    assert s[j + 1] == 'i' && s[j + 2] == 'd';
    NoMarkerFrom(s, k0);
  }

  // The distinct URLs of the test list.
  const NoCookieEmbedUrl: string := "//www.youtube-nocookie.com/" + "embed/" + Id + "?rel=0"
  const UserPageDigitOneUrl: string := "http://www.youtube.com/user/" + "Scobleizer#p/" + "u/1/" + Id
  const WatchWithFeatureUrl: string := "http://www.youtube.com/watch" + "?v=" + Id + "&feature=channel"
  const ScreeningRoomUrl: string := "http://www.youtube.com/" + "ytscreeningroom" + "?v=" + Id
  const UserPageDigitTwoUrl: string := "http://www.youtube.com/user/" + "SilkRoadTheatre#p/a/" + "u/2/" + Id
  const ShortLinkUrl: string := "http://" + "youtu.be/" + Id
  const WatchSharedFromShortLinkUrl: string := "http://www.youtube.com/watch" + "?v=" + Id + "&feature=youtu.be"
  const UserPageWithQueryUrl: string := "http://www.youtube.com/user/" + "Scobleizer#p/" + "u/1/" + Id + "?rel=0"
  const EmbedUrl: string := "http://www.youtube.com/" + "embed/" + Id + "?rel=0"
  const WatchUrl: string := "http://www.youtube.com/watch" + "?v=" + Id
  const VPathUrl: string := "http://youtube.com/" + "v/" + Id + "?feature=youtube_gdata_player"
  const ViPathUrl: string := "http://youtube.com/" + "vi/" + Id + "?feature=youtube_gdata_player"
  const RootVUrl: string := "http://youtube.com/" + "?v=" + Id + "&feature=youtube_gdata_player"
  const WatchGdataUrl: string := "http://www.youtube.com/watch" + "?v=" + Id + "&feature=youtube_gdata_player"
  const RootViUrl: string := "http://youtube.com/" + "?vi=" + Id + "&feature=youtube_gdata_player"
  const BareWatchVUrl: string := "http://youtube.com/watch" + "?v=" + Id + "&feature=youtube_gdata_player"
  const BareWatchViUrl: string := "http://youtube.com/watch" + "?vi=" + Id + "&feature=youtube_gdata_player"
  const ShortLinkGdataUrl: string := "http://" + "youtu.be/" + Id + "?feature=youtube_gdata_player"
  // `videos=osPknwzXEas&feature=sub`, split where `vid` starts.
  const WatchWithPlaylistUrl: string := "http://www.youtube.com/watch" + "?v=" + Id
      + ("&playnext_from=TL&" + "vid" + "eos=osPknwzXEas&feature=sub")

  lemma NoCookieEmbed()
    ensures ExtractVideoId(NoCookieEmbedUrl) == Ok(Id)
  {
    EmbedMarker("//www.youtube-nocookie.com/", Id + "?rel=0");
    ExtractsId("//www.youtube-nocookie.com/", "embed/", "?rel=0");
  }

  lemma UserPageDigitOne()
    ensures ExtractVideoId(UserPageDigitOneUrl) == Ok(Id)
  {
    UserMarker(("http://www.youtube.com/user/" + "Scobleizer#p/"), '1', Id + "");
    assert "u/" + ['1'] + "/" == "u/1/";
    ExtractsIdAtEnd(("http://www.youtube.com/user/" + "Scobleizer#p/"), "u/1/");
  }

  lemma WatchWithFeature()
    ensures ExtractVideoId(WatchWithFeatureUrl) == Ok(Id)
  {
    QueryVMarker("http://www.youtube.com/watch", "?v=", Id + "&feature=channel");
    ExtractsId("http://www.youtube.com/watch", "?v=", "&feature=channel");
  }

  lemma ScreeningRoom()
    ensures ExtractVideoId(ScreeningRoomUrl) == Ok(Id)
  {
    QueryVMarker(("http://www.youtube.com/" + "ytscreeningroom"), "?v=", Id + "");
    ExtractsIdAtEnd(("http://www.youtube.com/" + "ytscreeningroom"), "?v=");
  }

  lemma UserPageDigitTwo()
    ensures ExtractVideoId(UserPageDigitTwoUrl) == Ok(Id)
  {
    UserMarker(("http://www.youtube.com/user/" + "SilkRoadTheatre#p/a/"), '2', Id + "");
    assert "u/" + ['2'] + "/" == "u/2/";
    ExtractsIdAtEnd(("http://www.youtube.com/user/" + "SilkRoadTheatre#p/a/"), "u/2/");
  }

  lemma ShortLink()
    ensures ExtractVideoId(ShortLinkUrl) == Ok(Id)
  {
    YoutuBeMarker("http://", Id + "");
    ExtractsIdAtEnd("http://", "youtu.be/");
  }

  lemma WatchSharedFromShortLink()
    ensures ExtractVideoId(WatchSharedFromShortLinkUrl) == Ok(Id)
  {
    QueryVMarker("http://www.youtube.com/watch", "?v=", Id + "&feature=youtu.be");
    ExtractsId("http://www.youtube.com/watch", "?v=", "&feature=youtu.be");
  }

  lemma UserPageWithQuery()
    ensures ExtractVideoId(UserPageWithQueryUrl) == Ok(Id)
  {
    UserMarker(("http://www.youtube.com/user/" + "Scobleizer#p/"), '1', Id + "?rel=0");
    assert "u/" + ['1'] + "/" == "u/1/";
    ExtractsId(("http://www.youtube.com/user/" + "Scobleizer#p/"), "u/1/", "?rel=0");
  }

  lemma Embed()
    ensures ExtractVideoId(EmbedUrl) == Ok(Id)
  {
    EmbedMarker("http://www.youtube.com/", Id + "?rel=0");
    ExtractsId("http://www.youtube.com/", "embed/", "?rel=0");
  }

  lemma Watch()
    ensures ExtractVideoId(WatchUrl) == Ok(Id)
  {
    QueryVMarker("http://www.youtube.com/watch", "?v=", Id + "");
    ExtractsIdAtEnd("http://www.youtube.com/watch", "?v=");
  }

  lemma VPath()
    ensures ExtractVideoId(VPathUrl) == Ok(Id)
  {
    QuestionGdataTail();
    VSlashMarker("http://youtube.com/", Id + "?feature=youtube_gdata_player");
    ExtractsId("http://youtube.com/", "v/", "?feature=youtube_gdata_player");
  }

  lemma ViPath()
    ensures ExtractVideoId(ViPathUrl) == Ok(Id)
  {
    QuestionGdataTail();
    ViSlashMarker("http://youtube.com/", Id + "?feature=youtube_gdata_player");
    ExtractsId("http://youtube.com/", "vi/", "?feature=youtube_gdata_player");
  }

  lemma RootV()
    ensures ExtractVideoId(RootVUrl) == Ok(Id)
  {
    AmpersandGdataTail();
    QueryVMarker("http://youtube.com/", "?v=", Id + "&feature=youtube_gdata_player");
    ExtractsId("http://youtube.com/", "?v=", "&feature=youtube_gdata_player");
  }

  lemma WatchGdata()
    ensures ExtractVideoId(WatchGdataUrl) == Ok(Id)
  {
    AmpersandGdataTail();
    QueryVMarker("http://www.youtube.com/watch", "?v=", Id + "&feature=youtube_gdata_player");
    ExtractsId("http://www.youtube.com/watch", "?v=", "&feature=youtube_gdata_player");
  }

  lemma RootVi()
    ensures ExtractVideoId(RootViUrl) == Ok(Id)
  {
    AmpersandGdataTail();
    QueryViMarker("http://youtube.com/", "?vi=", Id + "&feature=youtube_gdata_player");
    ExtractsId("http://youtube.com/", "?vi=", "&feature=youtube_gdata_player");
  }

  lemma BareWatchV()
    ensures ExtractVideoId(BareWatchVUrl) == Ok(Id)
  {
    AmpersandGdataTail();
    QueryVMarker("http://youtube.com/watch", "?v=", Id + "&feature=youtube_gdata_player");
    ExtractsId("http://youtube.com/watch", "?v=", "&feature=youtube_gdata_player");
  }

  lemma BareWatchVi()
    ensures ExtractVideoId(BareWatchViUrl) == Ok(Id)
  {
    AmpersandGdataTail();
    QueryViMarker("http://youtube.com/watch", "?vi=", Id + "&feature=youtube_gdata_player");
    ExtractsId("http://youtube.com/watch", "?vi=", "&feature=youtube_gdata_player");
  }

  lemma ShortLinkGdata()
    ensures ExtractVideoId(ShortLinkGdataUrl) == Ok(Id)
  {
    QuestionGdataTail();
    YoutuBeMarker("http://", Id + "?feature=youtube_gdata_player");
    ExtractsId("http://", "youtu.be/", "?feature=youtube_gdata_player");
  }

  lemma WatchWithPlaylist()
    ensures ExtractVideoId(WatchWithPlaylistUrl) == Ok(Id)
  {
    var r1, r2 := "&playnext_from=TL&", "eos=osPknwzXEas&feature=sub";
    QueryVMarker("http://www.youtube.com/watch", "?v=", Id + (r1 + "vid" + r2));
    ExtractsIdBeforeVid("http://www.youtube.com/watch", "?v=", r1, r2);
  }

  /** A marker followed at once by a delimiter captures the empty id: the result is `Ok("")`, not an error. */
  lemma EmptyIdBeforeDelimiter()
    ensures ExtractVideoId("http://www.youtube.com/watch" + "?v=" + "&x") == Ok("")
  {
    var a, rest := "http://www.youtube.com/watch", "&x";
    QueryVMarker(a, "?v=", "" + rest);
    var s := a + "?v=" + "" + rest;
    assert s == a + "?v=" + ("" + rest);
    assert s == "http://www.youtube.com/watch" + "?v=" + "&x";
    var k0 := |a| + 3;
    assert s[k0..] == rest;
    CharAbsentFrom(s, k0, '/');
    CharAbsentFrom(s, k0, 'v');
    NoMarkerFrom(s, k0);
    ExtractAfterMarker(a, "?v=", "", rest);
  }
}
