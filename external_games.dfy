/** The catalog search proxy (`GET /api/search/:query`): the results the external
    catalog returns are reshaped into the items the client shows. The request to
    the catalog itself is outside the model; its outcome arrives as a parameter. */
module ExternalGames {
  import opened Common

  const UnknownPlatforms: string := "Plataforma desconhecida"
  const NoReleaseDate: string := "N/A"
  const PlatformSeparator: string := ", "
  const YearLength: nat := 4
  const MsgUpstream: string := "Erro ao comunicar com o serviço de jogos externo"

  datatype PlatformInfo = PlatformInfo(name: string)
  /** One element of a result's `platforms` array; `platform` is `None` when the
      nested object is missing, and reading `p.platform.name` then throws. */
  datatype PlatformSlot = PlatformSlot(platform: Option<PlatformInfo>)

  /** The part of an upstream result the proxy reads. */
  datatype UpstreamGame = UpstreamGame(
    id: int,
    name: string,
    background_image: Option<string>,
    platforms: Option<seq<PlatformSlot>>,
    released: Option<string>)

  /** The shaped item sent to the client. */
  datatype SearchItem = SearchItem(
    rawgId: int,
    gameTitle: string,
    backgroundImage: Option<string>,
    platforms: string,
    releaseDate: string)

  /** `xs.join(sep)`. */
  function JoinWith(xs: seq<string>, sep: string): string
  {
    if |xs| == 0 then [] else if |xs| == 1 then xs[0] else xs[0] + sep + JoinWith(xs[1..], sep)
  }

  function TotalLength(xs: seq<string>): nat
  {
    if xs == [] then 0 else |xs[0]| + TotalLength(xs[1..])
  }

  /** The joined text holds every name and one separator between each neighbouring pair. */
  lemma {:induction false} JoinWithLength(xs: seq<string>, sep: string)
    requires |xs| > 0
    ensures |JoinWith(xs, sep)| == TotalLength(xs) + |sep| * (|xs| - 1)
  {
    if |xs| > 1 {
      JoinWithLength(xs[1..], sep);
    }
  }

  /** `game.platforms.map(p => p.platform.name)`; `None` when an element has no
      `platform` object. */
  function PlatformNames(slots: seq<PlatformSlot>): (r: Option<seq<string>>)
    ensures r.Some? <==> forall i :: 0 <= i < |slots| ==> slots[i].platform.Some?
    ensures r.Some? ==>
      && |r.value| == |slots|
      && forall i :: 0 <= i < |slots| ==> r.value[i] == slots[i].platform.value.name
  {
    if slots == [] then Some([])
    else if slots[0].platform.None? then None
    else
      var rest := PlatformNames(slots[1..]);
      if rest.None? then None else Some([slots[0].platform.value.name] + rest.value)
  }

  /** The `platforms` text: the names joined by `", "` when the field is present,
      `'Plataforma desconhecida'` when it is absent. */
  function PlatformsText(platforms: Option<seq<PlatformSlot>>): Option<string>
  {
    if platforms.None? then Some(UnknownPlatforms)
    else
      var names := PlatformNames(platforms.value);
      if names.None? then None else Some(JoinWith(names.value, PlatformSeparator))
  }

  lemma PlatformsTextCases(platforms: Option<seq<PlatformSlot>>)
    ensures platforms.None? ==> PlatformsText(platforms) == Some(UnknownPlatforms)
    ensures platforms == Some([]) ==> PlatformsText(platforms) == Some([])
    ensures platforms.Some? && |platforms.value| == 1 && platforms.value[0].platform.Some? ==>
      PlatformsText(platforms) == Some(platforms.value[0].platform.value.name)
    ensures platforms.Some? ==>
      (PlatformsText(platforms).Some? <==>
        forall i :: 0 <= i < |platforms.value| ==> platforms.value[i].platform.Some?)
  {
  }

  /** `game.released ? game.released.substring(0, 4) : 'N/A'`. */
  function ReleaseYear(released: Option<string>): (r: string)
    ensures (released.None? || released.value == []) ==> r == NoReleaseDate
    ensures released.Some? && released.value != [] ==>
      && |r| == (if |released.value| < YearLength then |released.value| else YearLength)
      && r == released.value[..|r|]
  {
    if released.None? || released.value == [] then NoReleaseDate
    else if |released.value| < YearLength then released.value
    else released.value[..YearLength]
  }

  /** One upstream result shaped into an item; `None` where the mapping throws. */
  function FormatGame(g: UpstreamGame): (r: Option<SearchItem>)
    ensures r.Some? <==> PlatformsText(g.platforms).Some?
    ensures r.Some? ==>
      && r.value.rawgId == g.id && r.value.gameTitle == g.name
      && r.value.backgroundImage == g.background_image
      && r.value.platforms == PlatformsText(g.platforms).value
      && r.value.releaseDate == ReleaseYear(g.released)
  {
    var platforms := PlatformsText(g.platforms);
    if platforms.None? then None
    else Some(SearchItem(g.id, g.name, g.background_image, platforms.value, ReleaseYear(g.released)))
  }

  /** `results.map(...)`: one item per result, in the same order, unless one of
      them throws. */
  function FormatGames(results: seq<UpstreamGame>): (r: Option<seq<SearchItem>>)
    ensures r.Some? <==> forall i :: 0 <= i < |results| ==> FormatGame(results[i]).Some?
    ensures r.Some? ==>
      && |r.value| == |results|
      && forall i :: 0 <= i < |results| ==> r.value[i] == FormatGame(results[i]).value
  {
    if results == [] then Some([])
    else
      var first := FormatGame(results[0]);
      var rest := FormatGames(results[1..]);
      if first.None? || rest.None? then None else Some([first.value] + rest.value)
  }

  /** The handler's reply: the shaped list, or a 500 with one fixed message for
      any failure of the upstream call (`None`) or of the shaping. */
  function Search(upstream: Option<seq<UpstreamGame>>): (r: Response<seq<SearchItem>>)
    ensures upstream.None? ==> r == Failure(500, MsgUpstream)
    ensures r.Failure? ==> r == Failure(500, MsgUpstream)
    ensures r.Success? <==> upstream.Some? && FormatGames(upstream.value).Some?
    ensures r.Success? ==> r.status == 200 && |r.body| == |upstream.value|
  {
    if upstream.None? then Failure(500, MsgUpstream)
    else
      var items := FormatGames(upstream.value);
      if items.None? then Failure(500, MsgUpstream) else Success(200, items.value)
  }
}
