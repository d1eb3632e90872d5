/** The record-shaping half of ingestMusicData.js: the MusicBrainz user
    agent is checked and split into the client's identity, and the
    composer's works are turned into the records later enriched. The two
    MusicBrainz requests (artist search, artist lookup) and the clock are
    inputs. */
module Ingest {
  import opened Wrappers
  import opened JsonValue
  import JsString

  // ---------------------------------------------------------------------
  // The user agent (lines 7-19)
  // ---------------------------------------------------------------------

  /** The example value shipped with the project, which must be replaced:
      "ClassicalMusicAIEnrichmentApp/1.0.0 (your-email@example.com)". */
  const Placeholder: string := "ClassicalMusicAIEnrichmentApp" + "/" + "1.0.0" + " (" + "your-email@example.com" + ")"

  const DefaultAppName: string := "my-app"
  const DefaultAppVersion: string := "1.0.0"
  const DefaultContact: string := "jonamarkin@gmail.com"

  /** What the MusicBrainz client is constructed with. */
  datatype AppIdentity = AppIdentity(appName: string, appVersion: string, contact: string)

  /** The start-up check: an unset, empty or placeholder user agent stops
      the program. */
  predicate UserAgentRejected(ua: Option<string>) {
    ua.None? || ua.value == "" || ua.value == Placeholder
  }

  /** The second space-separated token, or "" when there is none (a
      missing token and an empty one are both falsy). */
  function ContactToken(tokens: seq<string>): string {
    if |tokens| > 1 then tokens[1] else ""
  }

  /** `raw ? raw.substring(1, raw.length - 1) : 'jonamarkin@gmail.com'`. */
  function ContactOf(raw: string): (r: string)
    ensures raw == "" ==> r == DefaultContact
    ensures |raw| >= 2 ==> r == raw[1..|raw| - 1]
    ensures |raw| == 1 ==> r == raw
  {
    if raw != "" then JsString.Substring(raw, 1, |raw| - 1) else DefaultContact
  }

  /** Lines 13-19: the user agent is split on spaces; the first token is
      split on `/` into name and version, the second token (brackets
      dropped) is the contact, and later tokens are ignored. An empty or
      missing name or version takes its default. */
  function ParseUserAgent(ua: string): (r: AppIdentity)
    ensures r.appName != "" && r.appVersion != ""
  {
    var tokens := JsString.Split(ua, ' ');
    var nameVersion := JsString.Split(tokens[0], '/');
    var name := nameVersion[0];
    var version := if |nameVersion| > 1 then nameVersion[1] else "";
    AppIdentity(
      if name != "" then name else DefaultAppName,
      if version != "" then version else DefaultAppVersion,
      ContactOf(ContactToken(tokens)))
  }

  /** The identity the client runs with, or `None` when the program stops
      at the start-up check. */
  function Configure(ua: Option<string>): (r: Option<AppIdentity>)
    ensures r.None? <==> UserAgentRejected(ua)
  {
    if UserAgentRejected(ua) then None else Some(ParseUserAgent(ua.value))
  }

  /** The conventional `name/version (contact)` form of a user agent. */
  function UserAgent(id: AppIdentity): string {
    id.appName + "/" + id.appVersion + " (" + id.contact + ")"
  }

  /** An identity the conventional form carries intact: name and version
      non-empty and free of spaces and slashes, contact free of spaces. */
  predicate WellFormed(id: AppIdentity) {
    && id.appName != "" && id.appVersion != ""
    && ' ' !in id.appName && '/' !in id.appName
    && ' ' !in id.appVersion && '/' !in id.appVersion
    && ' ' !in id.contact
  }

  /** Parsing the conventional form gives back the identity. */
  lemma ParseUserAgentRoundTrip(id: AppIdentity)
    requires WellFormed(id)
    ensures ParseUserAgent(UserAgent(id)) == id
  {
    var head := id.appName + "/" + id.appVersion;
    var raw := "(" + id.contact + ")";
    assert UserAgent(id) == head + [' '] + raw;
    assert ' ' !in head by {
      assert forall k :: 0 <= k < |head| ==> head[k] == if k < |id.appName| then id.appName[k] else if k == |id.appName| then '/' else id.appVersion[k - |id.appName| - 1];
    }
    assert ' ' !in raw by {
      assert forall k :: 0 <= k < |raw| ==> raw[k] == if k == 0 then '(' else if k <= |id.contact| then id.contact[k - 1] else ')';
    }
    JsString.SplitPrefix(head, raw, ' ');
    JsString.SplitNoSeparator(raw, ' ');
    assert head == id.appName + ['/'] + id.appVersion;
    JsString.SplitPrefix(id.appName, id.appVersion, '/');
    JsString.SplitNoSeparator(id.appVersion, '/');
    assert raw[1..|raw| - 1] == id.contact;
  }

  /** A well-formed user agent other than the placeholder configures the
      client with exactly the identity it spells out. */
  lemma ConfigureAccepts(id: AppIdentity)
    requires WellFormed(id) && UserAgent(id) != Placeholder
    ensures Configure(Some(UserAgent(id))) == Some(id)
  {
    ParseUserAgentRoundTrip(id);
  }

  /** The placeholder would parse into a perfectly usable identity; only
      the explicit comparison keeps it out. */
  lemma PlaceholderParses()
    ensures ParseUserAgent(Placeholder) == PlaceholderId
    ensures Configure(Some(Placeholder)) == None
  {
    PlaceholderWellFormed();
    ParseUserAgentRoundTrip(PlaceholderId);
  }

  /** The identity the placeholder spells out. */
  const PlaceholderId: AppIdentity := AppIdentity("ClassicalMusicAIEnrichmentApp", "1.0.0", "your-email@example.com")

  /** The placeholder's parts carry no space and no stray slash. */
  lemma PlaceholderWellFormed()
    ensures WellFormed(PlaceholderId)
  {
    var id := PlaceholderId;
    assert forall k :: 0 <= k < |id.appName| ==> 'A' <= id.appName[k] <= 'z';
    assert forall k :: 0 <= k < |id.appVersion| ==> id.appVersion[k] == '.' || '0' <= id.appVersion[k] <= '9';
    assert forall k :: 0 <= k < |id.contact| ==> id.contact[k] != ' ';
  }

  /** Tokens after the second are ignored. */
  lemma ExtraTokensIgnored(head: string, contact: string, rest: string)
    requires ' ' !in head && ' ' !in contact
    ensures ParseUserAgent(head + " " + contact + " " + rest) == ParseUserAgent(head + " " + contact)
  {
    JsString.SplitPrefix(contact, rest, ' ');
    assert head + " " + contact + " " + rest == head + [' '] + (contact + [' '] + rest);
    JsString.SplitPrefix(head, contact + [' '] + rest, ' ');
    JsString.SplitNoSeparator(contact, ' ');
    assert head + " " + contact == head + [' '] + contact;
    JsString.SplitPrefix(head, contact, ' ');
  }

  /** Without a second token, or with an empty one (a trailing space), the
      contact is the default address. */
  lemma NoContactToken(head: string)
    requires ' ' !in head
    ensures ParseUserAgent(head).contact == DefaultContact
    ensures ParseUserAgent(head + " ").contact == DefaultContact
  {
    JsString.SplitNoSeparator(head, ' ');
    assert head + " " == head + [' '] + "";
    JsString.SplitPrefix(head, "", ' ');
  }

  /** The contact token loses its first and last characters whether or not
      they are brackets; a one-character token comes back whole (the
      arguments of `substring` are swapped) and a two-character one gives
      the empty string. */
  lemma ContactTokenEnds(head: string, token: string)
    requires ' ' !in head && ' ' !in token && token != ""
    ensures |token| >= 2 ==> ParseUserAgent(head + " " + token).contact == token[1..|token| - 1]
    ensures |token| == 1 ==> ParseUserAgent(head + " " + token).contact == token
    ensures |token| == 2 ==> ParseUserAgent(head + " " + token).contact == ""
  {
    assert head + " " + token == head + [' '] + token;
    JsString.SplitPrefix(head, token, ' ');
    JsString.SplitNoSeparator(token, ' ');
  }

  /** An empty name or version before the slash takes its default. */
  lemma EmptyNameAndVersion(contact: string)
    requires ' ' !in contact
    ensures ParseUserAgent("/ " + contact).appName == DefaultAppName
    ensures ParseUserAgent("/ " + contact).appVersion == DefaultAppVersion
  {
    assert "/ " + contact == "/" + [' '] + contact;
    JsString.SplitPrefix("/", contact, ' ');
    assert "/" == "" + ['/'] + "";
    JsString.SplitPrefix("", "", '/');
  }

  /** A user agent of two space-free tokens splits into exactly those. */
  lemma TwoTokens(head: string, contact: string)
    requires ' ' !in head && ' ' !in contact
    ensures JsString.Split(head + " " + contact, ' ') == [head, contact]
  {
    assert head + " " + contact == head + [' '] + contact;
    JsString.SplitPrefix(head, contact, ' ');
    JsString.SplitNoSeparator(contact, ' ');
  }

  /** A first token without a slash is the name alone, and the version
      takes its default. */
  lemma VersionWithoutSlash(name: string, contact: string)
    requires name != "" && ' ' !in name && '/' !in name && ' ' !in contact
    ensures ParseUserAgent(name + " " + contact) == AppIdentity(name, DefaultAppVersion, ContactOf(contact))
  {
    TwoTokens(name, contact);
    JsString.SplitNoSeparator(name, '/');
  }

  /** Only the first two `/`-separated parts of the first token are read;
      a third part, and any after it, are ignored. */
  lemma ThirdSlashPartIgnored(name: string, version: string, extra: string, contact: string)
    requires name != "" && version != "" && '/' !in name && '/' !in version
    requires ' ' !in name && ' ' !in version && ' ' !in extra && ' ' !in contact
    ensures ParseUserAgent(name + "/" + version + "/" + extra + " " + contact)
            == AppIdentity(name, version, ContactOf(contact))
  {
    var tail := version + ['/'] + extra;
    var head := name + ['/'] + tail;
    assert name + "/" + version + "/" + extra == head;
    assert ' ' !in head by {
      assert forall k :: 0 <= k < |head| ==> head[k] == if k < |name| then name[k] else if k == |name| then '/' else tail[k - |name| - 1];
      assert forall k :: 0 <= k < |tail| ==> tail[k] == if k < |version| then version[k] else if k == |version| then '/' else extra[k - |version| - 1];
    }
    TwoTokens(head, contact);
    JsString.SplitPrefix(name, tail, '/');
    JsString.SplitPrefix(version, extra, '/');
  }

  /** A first token with nothing before the slash takes the default name
      and keeps the version. */
  lemma EmptyName(version: string, contact: string)
    requires version != "" && ' ' !in version && '/' !in version && ' ' !in contact
    ensures ParseUserAgent("/" + version + " " + contact) == AppIdentity(DefaultAppName, version, ContactOf(contact))
  {
    var head := "" + ['/'] + version;
    assert "/" + version == head;
    assert ' ' !in head by {
      assert forall k :: 0 <= k < |head| ==> head[k] == if k == 0 then '/' else version[k - 1];
    }
    TwoTokens(head, contact);
    JsString.SplitPrefix("", version, '/');
    JsString.SplitNoSeparator(version, '/');
  }

  /** A first token with nothing after the slash keeps the name and takes
      the default version. */
  lemma EmptyVersion(name: string, contact: string)
    requires name != "" && ' ' !in name && '/' !in name && ' ' !in contact
    ensures ParseUserAgent(name + "/" + " " + contact) == AppIdentity(name, DefaultAppVersion, ContactOf(contact))
  {
    var head := name + ['/'] + "";
    assert name + "/" == head;
    assert ' ' !in head by {
      assert forall k :: 0 <= k < |head| ==> head[k] == if k < |name| then name[k] else '/';
    }
    TwoTokens(head, contact);
    JsString.SplitPrefix(name, "", '/');
  }

  // ---------------------------------------------------------------------
  // The composer (line 30)
  // ---------------------------------------------------------------------

  /** `a.name === composerName && a['type'] === 'Person'`: strict equality,
      so only string values match. */
  predicate IsComposerMatch(artist: Record, composerName: string) {
    Get(artist, "name") == Some(JStr(composerName)) && Get(artist, "type") == Some(JStr("Person"))
  }

  /** `artists.find(...)`: the position of the first matching artist. */
  function FindComposer(artists: seq<Record>, composerName: string): (r: Option<nat>)
    ensures r.Some? ==>
      && r.value < |artists| && IsComposerMatch(artists[r.value], composerName)
      && forall k :: 0 <= k < r.value ==> !IsComposerMatch(artists[k], composerName)
    ensures r.None? <==> forall k :: 0 <= k < |artists| ==> !IsComposerMatch(artists[k], composerName)
  {
    if |artists| == 0 then None
    else if IsComposerMatch(artists[0], composerName) then Some(0)
    else
      match FindComposer(artists[1..], composerName)
      case None => None
      case Some(i) => Some(i + 1)
  }

  // ---------------------------------------------------------------------
  // The limit (line 45)
  // ---------------------------------------------------------------------

  /** The default of `limit` when the caller passes none. */
  const DefaultLimit: int := 10

  /** `limit > 0 ? works.slice(0, limit) : works`. */
  function SelectWorks(works: seq<Record>, limit: int): (r: seq<Record>)
    ensures limit > 0 ==> |r| == JsString.Min(limit, |works|)
    ensures limit <= 0 ==> r == works
    ensures r == works[..|r|]
  {
    if limit > 0 then works[..JsString.Min(limit, |works|)] else works
  }

  /** Applying the same limit twice keeps the same works. */
  lemma SelectWorksIdempotent(works: seq<Record>, limit: int)
    ensures SelectWorks(SelectWorks(works, limit), limit) == SelectWorks(works, limit)
  {
  }

  /** A limit of at least the number of works keeps them all. */
  lemma SelectWorksAll(works: seq<Record>, limit: int)
    requires limit >= |works|
    ensures SelectWorks(works, limit) == works
  {
  }

  // ---------------------------------------------------------------------
  // The record (lines 53-66)
  // ---------------------------------------------------------------------

  /** The `objectID` of the work at `index`: "music_" and the work's id when
      that is truthy, else "music_", the clock reading, "_" and the index. */
  function ObjectId(id: Option<Json>, index: nat, clock: nat): (r: string)
    ensures Present(id) ==> r == "music_" + Display(id.value)
    ensures !Present(id) ==> r == "music_" + JsString.NatToString(clock) + "_" + JsString.NatToString(index)
  {
    "music_" + (if Present(id) then Display(id.value) else JsString.NatToString(clock) + "_" + JsString.NatToString(index))
  }

  /** A property assignment `key: value`; a value read as `undefined` is
      absent from the record, as it is once the record is saved as JSON. */
  function Copy(key: string, value: Option<Json>): (r: Record)
    ensures r.Keys <= {key}
    ensures Get(r, key) == value
  {
    if value.Some? then map[key := value.value] else map[]
  }

  /** `value || []`. */
  function OrEmptyList(value: Option<Json>): (r: Json)
    ensures Present(value) ==> r == value.value
    ensures !Present(value) ==> r == JArr([])
  {
    if Present(value) then value.value else JArr([])
  }

  /** The keys every formatted record has. */
  const GeneratedKeys: set<string> := {"objectID", "iswcs", "attributes", "lyrics", "score_url", "audio_sample_url"}

  /** The properties copied from the work: `mbid: work.id`, `title`,
      `type`, `language`. */
  function WorkFields(work: Record): (r: Record)
    ensures r.Keys <= {"mbid", "title", "type", "language"}
    ensures Get(r, "mbid") == Get(work, "id")
    ensures Get(r, "title") == Get(work, "title")
    ensures Get(r, "type") == Get(work, "type")
    ensures Get(r, "language") == Get(work, "language")
  {
    Copy("mbid", Get(work, "id")) + Copy("title", Get(work, "title"))
    + Copy("type", Get(work, "type")) + Copy("language", Get(work, "language"))
  }

  /** The properties taken from the chosen artist: `composer: composer.name`
      and `composer_mbid: composer.id`. */
  function ComposerFields(composer: Record): (r: Record)
    ensures r.Keys <= {"composer", "composer_mbid"}
    ensures Get(r, "composer") == Get(composer, "name")
    ensures Get(r, "composer_mbid") == Get(composer, "id")
  {
    Copy("composer", Get(composer, "name")) + Copy("composer_mbid", Get(composer, "id"))
  }

  /** The properties the mapping computes: the object id, the two lists
      defaulting to `[]`, and three `null` placeholders. */
  function GeneratedFields(work: Record, index: nat, clock: nat): (r: Record)
    ensures r.Keys == GeneratedKeys
    ensures r["objectID"] == JStr(ObjectId(Get(work, "id"), index, clock))
    ensures r["iswcs"] == OrEmptyList(Get(work, "iswcs"))
    ensures r["attributes"] == OrEmptyList(Get(work, "attributes"))
    ensures r["lyrics"] == JNull && r["score_url"] == JNull && r["audio_sample_url"] == JNull
  {
    map[
      "objectID" := JStr(ObjectId(Get(work, "id"), index, clock)),
      "iswcs" := OrEmptyList(Get(work, "iswcs")),
      "attributes" := OrEmptyList(Get(work, "attributes")),
      "lyrics" := JNull,
      "score_url" := JNull,
      "audio_sample_url" := JNull]
  }

  /** The record built from the work at `index`, for the chosen composer;
      `clock` is what `Date.now()` returns at that point. */
  function FormatWork(work: Record, index: nat, composer: Record, clock: nat): (r: Record)
  {
    WorkFields(work) + ComposerFields(composer) + GeneratedFields(work, index, clock)
  }

  /** The record has the six generated properties and those copied from the
      work and the artist, each holding the value it was built from; a
      property read as `undefined` is absent. */
  lemma FormatWorkFields(work: Record, index: nat, composer: Record, clock: nat)
    ensures var r := FormatWork(work, index, composer, clock);
      && GeneratedKeys <= r.Keys
      && r["objectID"] == JStr(ObjectId(Get(work, "id"), index, clock))
      && r["iswcs"] == OrEmptyList(Get(work, "iswcs"))
      && r["attributes"] == OrEmptyList(Get(work, "attributes"))
      && r["lyrics"] == JNull && r["score_url"] == JNull && r["audio_sample_url"] == JNull
  {
  }

  /** The copied properties carry the work's and the artist's values. */
  lemma FormatWorkCopies(work: Record, index: nat, composer: Record, clock: nat)
    ensures var r := FormatWork(work, index, composer, clock);
      && Get(r, "mbid") == Get(work, "id")
      && Get(r, "title") == Get(work, "title")
      && Get(r, "type") == Get(work, "type")
      && Get(r, "language") == Get(work, "language")
      && Get(r, "composer") == Get(composer, "name")
      && Get(r, "composer_mbid") == Get(composer, "id")
  {
    var w, c, g := WorkFields(work), ComposerFields(composer), GeneratedFields(work, index, clock);
    assert {"mbid", "title", "type", "language", "composer", "composer_mbid"} !! GeneratedKeys;
    assert {"mbid", "title", "type", "language"} !! {"composer", "composer_mbid"};
  }

  // ---------------------------------------------------------------------
  // fetchComposerWorks (lines 25-75)
  // ---------------------------------------------------------------------

  /** `fetchComposerWorks(composerName, limit)`. `artists` is the artist
      list of the search result, `None` when the search threw or returned
      no list; `lookup` gives the works of the artist with the given id,
      `None` when the lookup threw or returned no list; `now(i)` is the
      clock reading while the work at `i` is mapped. A missing composer,
      a failed request and an empty selection all give `[]`. */
  function FetchComposerWorks(composerName: string, limit: int, artists: Option<seq<Record>>,
                              lookup: Option<Json> -> Option<seq<Record>>, now: nat -> nat): (r: seq<Record>)
    ensures artists.None? ==> r == []
    ensures artists.Some? && FindComposer(artists.value, composerName).None? ==> r == []
    ensures && artists.Some? && FindComposer(artists.value, composerName).Some?
            && lookup(Get(artists.value[FindComposer(artists.value, composerName).value], "id")).None?
            ==> r == []
    ensures limit > 0 ==> |r| <= limit
  {
    if artists.None? then []
    else
      match FindComposer(artists.value, composerName)
      case None => []
      case Some(c) =>
        var composer := artists.value[c];
        var works := lookup(Get(composer, "id"));
        if works.None? then []
        else
          var selected := SelectWorks(works.value, limit);
          if |selected| == 0 then [] else FormatWorks(selected, composer, now)
  }

  /** `works.map((work, index) => ...)`: one record per work, in order. */
  function FormatWorks(works: seq<Record>, composer: Record, now: nat -> nat): seq<Record> {
    seq(|works|, i requires 0 <= i < |works| => FormatWork(works[i], i, composer, now(i)))
  }

  /** When the composer is found and its works are listed, there is one
      record per selected work, in order. */
  lemma FetchedRecords(composerName: string, limit: int, artists: seq<Record>,
                       lookup: Option<Json> -> Option<seq<Record>>, now: nat -> nat)
    requires FindComposer(artists, composerName).Some?
    requires lookup(Get(artists[FindComposer(artists, composerName).value], "id")).Some?
    ensures var composer := artists[FindComposer(artists, composerName).value];
            var selected := SelectWorks(lookup(Get(composer, "id")).value, limit);
            var r := FetchComposerWorks(composerName, limit, Some(artists), lookup, now);
            && |r| == |selected|
            && forall i :: 0 <= i < |r| ==> r[i] == FormatWork(selected[i], i, composer, now(i))
  {
  }

  /** Called with the default limit, at most ten works are turned into
      records: exactly ten when the composer has more, all of them
      otherwise. */
  lemma FetchedWithDefaultLimit(composerName: string, artists: seq<Record>,
                                lookup: Option<Json> -> Option<seq<Record>>, now: nat -> nat)
    requires FindComposer(artists, composerName).Some?
    requires lookup(Get(artists[FindComposer(artists, composerName).value], "id")).Some?
    ensures var works := lookup(Get(artists[FindComposer(artists, composerName).value], "id")).value;
            |FetchComposerWorks(composerName, DefaultLimit, Some(artists), lookup, now)|
            == JsString.Min(DefaultLimit, |works|)
  {
    FetchedRecords(composerName, DefaultLimit, artists, lookup, now);
  }

  /** Every fetched record names the composer that was asked for. */
  lemma FetchedComposerName(composerName: string, limit: int, artists: Option<seq<Record>>,
                            lookup: Option<Json> -> Option<seq<Record>>, now: nat -> nat)
    ensures var r := FetchComposerWorks(composerName, limit, artists, lookup, now);
            forall i :: 0 <= i < |r| ==> Get(r[i], "composer") == Some(JStr(composerName))
  {
    var r := FetchComposerWorks(composerName, limit, artists, lookup, now);
    if r != [] {
      var composer := artists.value[FindComposer(artists.value, composerName).value];
      var selected := SelectWorks(lookup(Get(composer, "id")).value, limit);
      FetchedRecords(composerName, limit, artists.value, lookup, now);
      forall i | 0 <= i < |r| ensures Get(r[i], "composer") == Some(JStr(composerName)) {
        FormatWorkCopies(selected[i], i, composer, now(i));
      }
    }
  }

  /** Two works with different string ids get different object ids. */
  lemma ObjectIdsOfDistinctIds(a: string, b: string, i: nat, j: nat, ci: nat, cj: nat)
    requires a != "" && b != "" && a != b
    ensures ObjectId(Some(JStr(a)), i, ci) != ObjectId(Some(JStr(b)), j, cj)
  {
    assert ObjectId(Some(JStr(a)), i, ci)[6..] == a;
    assert ObjectId(Some(JStr(b)), j, cj)[6..] == b;
  }

  /** Two works without an id at different positions get different object
      ids, whatever the clock says. */
  lemma ObjectIdsOfPositions(i: nat, j: nat, ci: nat, cj: nat)
    requires i != j
    ensures ObjectId(None, i, ci) != ObjectId(None, j, cj)
  {
    var ti, tj := JsString.NatToString(ci), JsString.NatToString(cj);
    var si, sj := JsString.NatToString(i), JsString.NatToString(j);
    if ObjectId(None, i, ci) == ObjectId(None, j, cj) {
      var x, y := ti + "_" + si, tj + "_" + sj;
      assert ObjectId(None, i, ci) == "music_" + x;
      assert ObjectId(None, j, cj) == "music_" + y;
      assert x == y by {
        assert x == ObjectId(None, i, ci)[6..];
        assert y == ObjectId(None, j, cj)[6..];
      }
      DigitsUnderscore(ti, si, tj, sj);
      NatToStringInjective(i, j);
    }
  }

  /** A string of digits, "_", a string of digits splits back into its two
      digit strings. */
  lemma DigitsUnderscore(a: string, b: string, c: string, d: string)
    requires forall k :: 0 <= k < |a| ==> '0' <= a[k] <= '9'
    requires forall k :: 0 <= k < |c| ==> '0' <= c[k] <= '9'
    requires a + "_" + b == c + "_" + d
    ensures a == c && b == d
  {
    var s := a + "_" + b;
    assert s[|a|] == '_' && s[|c|] == '_';
    assert forall k :: 0 <= k < |a| ==> s[k] == a[k];
    assert forall k :: 0 <= k < |c| ==> s[k] == c[k];
    assert a == s[..|a|] == c;
    assert b == s[|a| + 1..] == d;
  }

  /** Different numbers have different decimal spellings. */
  lemma {:induction false} NatToStringInjective(m: nat, n: nat)
    requires JsString.NatToString(m) == JsString.NatToString(n)
    ensures m == n
  {
    var sm, sn := JsString.NatToString(m), JsString.NatToString(n);
    if m >= 10 && n >= 10 {
      var pm, pn := JsString.NatToString(m / 10), JsString.NatToString(n / 10);
      assert sm == pm + [sm[|sm| - 1]] && sn == pn + [sn[|sn| - 1]];
      assert pm == sm[..|sm| - 1] == sn[..|sn| - 1] == pn;
      NatToStringInjective(m / 10, n / 10);
      assert '0' + (m % 10) as char == sm[|sm| - 1] == sn[|sn| - 1] == '0' + (n % 10) as char;
    } else if m < 10 && n < 10 {
      assert sm[0] == '0' + m as char && sn[0] == '0' + n as char;
    }
  }
}
