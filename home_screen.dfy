/** The library screen's logic: the gamified statistics, the XP bar, the status
    filter chips, the guard on status changes, and the screen state those
    setters update. */
module HomeScreen {
  import opened Common
  import opened UserGameSchema
  import opened UserGames

  /** The chip that shows every game. */
  const AllFilter: string := "Todos"
  const XpPerCompleted: nat := 10
  const XpPerLevel: nat := 50

  datatype Stats = Stats(total: nat, playing: nat, completed: nat, backlog: nat, xp: nat, level: nat)

  /** `games.filter(g => g.status === status).length`. */
  function CountStatus(games: seq<Entry>, status: string): (n: nat)
    ensures n <= |games|
  {
    if games == [] then 0
    else (if games[0].status == status then 1 else 0) + CountStatus(games[1..], status)
  }

  /** `games.filter(g => g.status === status)`: the games with that status, in
      their original order, as many as `CountStatus` counts. */
  function OfStatus(games: seq<Entry>, status: string): (r: seq<Entry>)
    ensures |r| == CountStatus(games, status)
    ensures forall i :: 0 <= i < |r| ==> r[i].status == status && r[i] in games
    ensures forall i :: 0 <= i < |games| && games[i].status == status ==> games[i] in r
  {
    if games == [] then []
    else (if games[0].status == status then [games[0]] else []) + OfStatus(games[1..], status)
  }

  /** Filtering keeps order: it distributes over concatenation. */
  lemma {:induction false} OfStatusAppend(a: seq<Entry>, b: seq<Entry>, status: string)
    ensures OfStatus(a + b, status) == OfStatus(a, status) + OfStatus(b, status)
  {
    if a != [] {
      assert (a + b)[1..] == a[1..] + b;
      OfStatusAppend(a[1..], b, status);
    } else {
      assert a + b == b;
    }
  }

  /** `calculateStats`. */
  function CalculateStats(games: seq<Entry>): Stats
  {
    var completed := CountStatus(games, "Zerado");
    var xp := completed * XpPerCompleted;
    Stats(
      total := |games|,
      playing := CountStatus(games, "Jogando"),
      completed := completed,
      backlog := CountStatus(games, "Backlog"),
      xp := xp,
      level := xp / XpPerLevel + 1)
  }

  /** `Math.floor(xp / 50) + 1` as a function of the completed count. */
  function LevelFor(completed: nat): nat
  {
    (completed * XpPerCompleted) / XpPerLevel + 1
  }

  /** The four status counts never exceed the total: each game has one status,
      and games in none of the three counted statuses (`Abandonado`, or any other
      string) are left out. */
  lemma {:induction false} StatusCountsBounded(games: seq<Entry>)
    ensures CountStatus(games, "Jogando") + CountStatus(games, "Zerado") + CountStatus(games, "Backlog")
      + CountStatus(games, "Abandonado") <= |games|
  {
    if games != [] {
      StatusCountsBounded(games[1..]);
    }
  }

  /** When every status is one the schema admits, the three counts plus the
      abandoned games make up the total exactly. */
  lemma {:induction false} StatusCountsPartition(games: seq<Entry>)
    requires forall i :: 0 <= i < |games| ==> ParseStatus(games[i].status).Some?
    ensures CountStatus(games, "Jogando") + CountStatus(games, "Zerado") + CountStatus(games, "Backlog")
      + CountStatus(games, "Abandonado") == |games|
  {
    if games != [] {
      assert ParseStatus(games[0].status).Some?;
      StatusCountsPartition(games[1..]);
    }
  }

  /** The statistics agree with the filter chips: the card count for a status is
      the length of that status's filtered list; xp is ten per completed game,
      and the level is at least one. */
  lemma StatsMatchFilters(games: seq<Entry>)
    ensures var s := CalculateStats(games);
      && s.total == |games|
      && s.playing == |OfStatus(games, "Jogando")|
      && s.completed == |OfStatus(games, "Zerado")|
      && s.backlog == |OfStatus(games, "Backlog")|
      && s.xp == XpPerCompleted * s.completed
      && s.level == LevelFor(s.completed) && s.level >= 1
      && s.playing + s.completed + s.backlog <= s.total
  {
    StatusCountsBounded(games);
  }

  /** Completing more games never lowers the level. */
  lemma LevelMonotone(c1: nat, c2: nat)
    requires c1 <= c2
    ensures 1 <= LevelFor(c1) <= LevelFor(c2)
  {
    assert c1 * XpPerCompleted <= c2 * XpPerCompleted;
  }

  /** Each further completed game moves the level up by at most one. */
  lemma LevelStep(c: nat)
    ensures LevelFor(c) <= LevelFor(c + 1) <= LevelFor(c) + 1
  {
  }

  /** The XP bar's fill, `(xp % 50) * 2` percent. */
  function XpFill(xp: nat): (pct: nat)
    ensures pct <= 98 && pct % 2 == 0
  {
    (xp % XpPerLevel) * 2
  }

  /** "`50 - xp % 50` XP to level `level + 1`": earning that much more reaches
      the next level, and one point less does not. */
  function XpToNextLevel(xp: nat): (n: nat)
    ensures 1 <= n <= XpPerLevel
    ensures (xp + n) / XpPerLevel + 1 == xp / XpPerLevel + 2
    ensures (xp + n - 1) / XpPerLevel == xp / XpPerLevel
  {
    XpPerLevel - xp % XpPerLevel
  }

  /** The list `applyFilter` shows. */
  function FilterGames(games: seq<Entry>, filter: string): seq<Entry>
  {
    if filter == AllFilter then games else OfStatus(games, filter)
  }

  /** `"Todos"` shows every game; another chip shows exactly the games with that
      status. */
  lemma FilterGamesSpec(games: seq<Entry>, filter: string)
    ensures filter == AllFilter ==> FilterGames(games, filter) == games
    ensures filter != AllFilter ==>
      forall g :: g in FilterGames(games, filter) <==> g in games && g.status == filter
  {
    if filter != AllFilter {
      forall g | g in games && g.status == filter
        ensures g in OfStatus(games, filter)
      {
        var i :| 0 <= i < |games| && games[i] == g;
      }
    }
  }

  /** Every chip keeps the games in their original order: filtering distributes
      over concatenation. */
  lemma FilterGamesAppend(a: seq<Entry>, b: seq<Entry>, filter: string)
    ensures FilterGames(a + b, filter) == FilterGames(a, filter) + FilterGames(b, filter)
  {
    if filter != AllFilter {
      OfStatusAppend(a, b, filter);
    }
  }

  /** `handleChangeStatus`: the request the screen sends, or `None` when the new
      status is the current one and nothing is sent. */
  function StatusChange(selected: Entry, newStatus: string): Option<UpdateBody>
  {
    if selected.status == newStatus then None else Some(UpdateBody([], [], newStatus, 0))
  }

  /** Picking the current status sends nothing; picking another sends a request
      that, applied by its owner, changes the status and nothing else. */
  lemma StatusChangeEffect(selected: Entry, newStatus: string)
    ensures StatusChange(selected, newStatus).None? <==> newStatus == selected.status
    ensures StatusChange(selected, newStatus).Some? && newStatus != [] ==>
      ApplyFields(selected, StatusChange(selected, newStatus).value) == selected.(status := newStatus)
  {
  }

  /** A sample library entry in the backlog. */
  function CelesteInBacklog(): Entry
  {
    Entry(0, 0, 100, Some([]), "Celeste", "PC", "Backlog", None, 0)
  }

  /** A reload of `[CelesteInBacklog()]` under the `"Zerado"` chip: the chip's view
      is empty, so the list `LoadGamesAsWritten` leaves on screen, which shows the
      game, is not the chip's view. */
  lemma StaleFilterWitness()
    ensures FilterGames([CelesteInBacklog()], "Zerado") == []
    ensures [CelesteInBacklog()] != FilterGames([CelesteInBacklog()], "Zerado")
  {
  }

  /** The screen's state hooks: `games`, `filteredGames`, `selectedFilter`, `stats`. */
  class HomeView {
    var games: seq<Entry>
    var filteredGames: seq<Entry>
    var selectedFilter: string
    var stats: Stats

    /** The list on screen is the selected chip's view of the games, and the
        statistics card describes the games. */
    ghost predicate Consistent()
      reads this
    {
      filteredGames == FilterGames(games, selectedFilter) && stats == CalculateStats(games)
    }

    /** The initial `useState` values. */
    constructor ()
      ensures games == [] && filteredGames == [] && selectedFilter == AllFilter
      ensures stats == Stats(0, 0, 0, 0, 0, 1)
      ensures Consistent()
    {
      games := [];
      filteredGames := [];
      selectedFilter := AllFilter;
      stats := Stats(0, 0, 0, 0, 0, 1);
    }

    /** `applyFilter(filter)`. */
    method ApplyFilter(filter: string)
      modifies this
      ensures selectedFilter == filter && filteredGames == FilterGames(games, filter)
      ensures games == old(games) && stats == old(stats)
      ensures old(stats) == CalculateStats(old(games)) ==> Consistent()
    {
      selectedFilter := filter;
      if filter == AllFilter {
        filteredGames := games;
      } else {
        filteredGames := OfStatus(games, filter);
      }
    }

    /** The success path of `fetchGames` as the screen has it: the list is reset
        to every game while the selected chip stays, so under any chip but
        `"Todos"` the list and the chip can disagree. */
    method LoadGamesAsWritten(data: seq<Entry>)
      modifies this
      ensures games == data && filteredGames == data && stats == CalculateStats(data)
      ensures selectedFilter == old(selectedFilter)
      ensures Consistent() <==> data == FilterGames(data, old(selectedFilter))
    {
      games := data;
      filteredGames := data;
      stats := CalculateStats(data);
    }

    /** The success path of `fetchGames` with the selected chip re-applied, which
        keeps the screen consistent after every reload. */
    method LoadGames(data: seq<Entry>)
      modifies this
      ensures games == data && stats == CalculateStats(data)
      ensures selectedFilter == old(selectedFilter)
      ensures filteredGames == FilterGames(data, selectedFilter)
      ensures Consistent()
    {
      games := data;
      filteredGames := FilterGames(data, selectedFilter);
      stats := CalculateStats(data);
    }
  }
}
