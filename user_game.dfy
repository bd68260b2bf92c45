/** The library-entry schema (`UserGameSchema`): field types, the status enum and
    its default, the rating bounds, the `trim` setter, the creation timestamp and the
    compound unique index on (user, rawgId). */
module UserGameSchema {
  import opened Common

  /** The four values the `status` enum admits. */
  datatype Status = Backlog | Jogando | Zerado | Abandonado

  function StatusName(st: Status): string
  {
    match st
    case Backlog => "Backlog"
    case Jogando => "Jogando"
    case Zerado => "Zerado"
    case Abandonado => "Abandonado"
  }

  /** `default: 'Backlog'` on the status path. */
  const DefaultStatus: string := "Backlog"

  /** `default: ''` on the backgroundImage path. */
  const DefaultBackgroundImage: string := ""

  const MinRating: int := 1
  const MaxRating: int := 5

  /** The enum validator: a string is accepted exactly when it names one of the statuses. */
  function ParseStatus(s: string): (r: Option<Status>)
    ensures r.Some? ==> StatusName(r.value) == s
    ensures forall st: Status :: StatusName(st) == s ==> r == Some(st)
  {
    if s == "Backlog" then Some(Backlog)
    else if s == "Jogando" then Some(Jogando)
    else if s == "Zerado" then Some(Zerado)
    else if s == "Abandonado" then Some(Abandonado)
    else None
  }

  lemma DefaultStatusIsBacklog()
    ensures ParseStatus(DefaultStatus) == Some(Backlog)
  {
  }

  /** The characters ECMAScript's `String.prototype.trim` strips: WhiteSpace and
      LineTerminator code points. */
  predicate IsJsSpace(c: char)
  {
    c == ' ' || c == '\t' || c == '\n' || c == '\r' || c == '\U{000B}' || c == '\U{000C}'
    || c == '\U{00A0}' || c == '\U{1680}' || ('\U{2000}' <= c <= '\U{200A}')
    || c == '\U{2028}' || c == '\U{2029}' || c == '\U{202F}' || c == '\U{205F}'
    || c == '\U{3000}' || c == '\U{FEFF}'
  }

  /** Drops the leading whitespace: the result is a suffix of `s` that does not
      start with a space (`TrimStartSpaces`: only spaces precede it). */
  function TrimStart(s: string): (r: string)
    ensures |r| <= |s| && r == s[|s| - |r|..]
    ensures r == [] || !IsJsSpace(r[0])
  {
    if |s| > 0 && IsJsSpace(s[0]) then TrimStart(s[1..]) else s
  }

  /** Everything `TrimStart` drops is whitespace. */
  lemma {:induction false} TrimStartSpaces(s: string)
    ensures forall i :: 0 <= i < |s| - |TrimStart(s)| ==> IsJsSpace(s[i])
  {
    if |s| > 0 && IsJsSpace(s[0]) {
      TrimStartSpaces(s[1..]);
      forall i | 0 <= i < |s| - |TrimStart(s)|
        ensures IsJsSpace(s[i])
      {
        if i > 0 {
          assert s[i] == s[1..][i - 1];
        }
      }
    }
  }

  /** Drops the trailing whitespace: the result is a prefix of `s` that does not
      end with a space (`TrimEndSpaces`: only spaces follow it). */
  function TrimEnd(s: string): (r: string)
    ensures |r| <= |s| && r == s[..|r|]
    ensures r == [] || !IsJsSpace(r[|r| - 1])
  {
    if |s| > 0 && IsJsSpace(s[|s| - 1]) then TrimEnd(s[..|s| - 1]) else s
  }

  /** Everything `TrimEnd` drops is whitespace. */
  lemma {:induction false} TrimEndSpaces(s: string)
    ensures forall i :: |TrimEnd(s)| <= i < |s| ==> IsJsSpace(s[i])
  {
    if |s| > 0 && IsJsSpace(s[|s| - 1]) {
      TrimEndSpaces(s[..|s| - 1]);
      forall i | |TrimEnd(s)| <= i < |s|
        ensures IsJsSpace(s[i])
      {
        if i < |s| - 1 {
          assert s[i] == s[..|s| - 1][i];
        }
      }
    }
  }

  /** Neither end of `s` is whitespace: what the trim setter leaves behind. */
  predicate Trimmed(s: string)
  {
    s == [] || (!IsJsSpace(s[0]) && !IsJsSpace(s[|s| - 1]))
  }

  /** The schema's `trim: true` setter. */
  function Trim(s: string): (r: string)
    ensures |r| <= |s|
    ensures Trimmed(r)
  {
    TrimEnd(TrimStart(s))
  }

  /** A prefix of the suffix `s[a..]` is a slice of `s` starting at `a`. */
  lemma SliceOfSuffix(s: string, a: nat, n: nat)
    requires a + n <= |s|
    ensures s[a..][..n] == s[a..a + n]
    ensures n > 0 ==> s[a..a + n][0] == s[a]
  {
  }

  /** Whitespace after position `n` of the suffix `s[a..]` is whitespace of `s`
      after position `a + n`. */
  lemma SuffixTailSpaces(s: string, a: nat, n: nat)
    requires a + n <= |s|
    requires forall i :: n <= i < |s[a..]| ==> IsJsSpace(s[a..][i])
    ensures forall i :: a + n <= i < |s| ==> IsJsSpace(s[i])
  {
    forall i | a + n <= i < |s|
      ensures IsJsSpace(s[i])
    {
      assert s[a..][i - a] == s[i];
    }
  }

  /** The trimmed value is the slice of `s` that starts where the leading
      whitespace ends. */
  lemma TrimIsSlice(s: string)
    ensures var a := |s| - |TrimStart(s)|;
      && a + |Trim(s)| <= |s|
      && Trim(s) == s[a..a + |Trim(s)|]
      && (Trim(s) != [] ==> Trim(s)[0] == s[a])
  {
    SliceOfSuffix(s, |s| - |TrimStart(s)|, |Trim(s)|);
  }

  /** What trimming drops on either side of that slice is whitespace. */
  lemma TrimDropsSpaces(s: string)
    ensures var a := |s| - |TrimStart(s)|;
      && (forall i :: 0 <= i < a ==> IsJsSpace(s[i]))
      && (forall i :: a + |Trim(s)| <= i < |s| ==> IsJsSpace(s[i]))
  {
    TrimStartSpaces(s);
    TrimEndSpaces(TrimStart(s));
    SuffixTailSpaces(s, |s| - |TrimStart(s)|, |Trim(s)|);
  }

  /** A trimmed value is its own trim. */
  lemma TrimmedFixed(s: string)
    requires Trimmed(s)
    ensures Trim(s) == s
  {
    assert TrimStart(s) == s;
    assert TrimEnd(s) == s;
  }

  lemma TrimIdempotent(s: string)
    ensures Trim(Trim(s)) == Trim(s)
  {
    TrimmedFixed(Trim(s));
  }

  /** Trimming yields the empty string exactly when `s` is all whitespace, which is
      when the schema's `required` validator rejects the value. */
  lemma TrimEmptyIff(s: string)
    ensures Trim(s) == [] <==> forall i :: 0 <= i < |s| ==> IsJsSpace(s[i])
  {
    TrimIsSlice(s);
    TrimDropsSpaces(s);
  }

  /** A stored library entry. `status` is kept as the string the write supplied,
      since only the save path validates it against the enum. `backgroundImage`
      is `None` when the document holds `null`. */
  datatype Entry = Entry(
    id: EntryId,
    user: UserId,
    rawgId: int,
    backgroundImage: Option<string>,
    gameTitle: string,
    platform: string,
    status: string,
    rating: Option<int>,
    createdAt: nat)

  /** What the schema's validators accept when a document is saved: `gameTitle`
      and `platform` present and non-empty once trimmed, `status` in the enum, and
      `rating`, when set, within its bounds. (`user` and `rawgId` are always present
      in this model.) */
  predicate WellFormed(e: Entry)
  {
    && e.gameTitle != [] && Trimmed(e.gameTitle)
    && e.platform != [] && Trimmed(e.platform)
    && ParseStatus(e.status).Some?
    && (e.rating.Some? ==> MinRating <= e.rating.value <= MaxRating)
  }

  /** The compound unique index `{ user: 1, rawgId: 1 }`. */
  predicate UniquePerUser(table: map<EntryId, Entry>)
  {
    forall a, b ::
      (a in table && b in table && table[a].user == table[b].user && table[a].rawgId == table[b].rawgId)
      ==> a == b
  }
}
