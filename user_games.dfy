/** The protected `/api/games` routes: create, list, partial update and delete over
    the collection of library entries, each scoped to the caller the access gate
    authenticated (`req.user.id`, passed here as `user`). */
module UserGames {
  import opened Common
  import opened UserGameSchema

  const MsgIncomplete: string := "Dados do jogo da RAWG incompletos."
  const MsgDuplicate: string := "Este jogo já está na sua lista."
  const MsgSaveError: string := "Erro no Servidor ao tentar salvar o jogo"
  const MsgNotFound: string := "Jogo não encontrado"
  const MsgUnauthorized: string := "Não autorizado"
  const MsgRemoved: string := "Jogo removido"

  /** The cover image field of a request body: left out, sent as `null` (the
      search results carry `null` for a game without a cover), or a string. */
  datatype CoverField = Absent | Null | Url(url: string)

  /** The cover field the client posts for a search result it adds: the result's
      `backgroundImage` spread into the body, `null` included. */
  function CoverFromSearch(image: Option<string>): CoverField
  {
    if image.None? then Null else Url(image.value)
  }

  /** A search result's cover, posted as the client posts it, is stored exactly
      as the search returned it, `null` included. */
  lemma SearchedCoverStored(image: Option<string>)
    ensures StoredCover(CoverFromSearch(image)) == image
  {
  }

  /** The body of `POST /`. A falsy field (`0`, `""`, or the field left out) is
      written as `0` or `""`; the handler treats all of them alike. The cover is
      not checked by the handler, so its three forms are kept apart. */
  datatype CreateBody = CreateBody(
    rawgId: int,
    gameTitle: string,
    platforms: string,
    backgroundImage: CoverField,
    status: string)

  /** The stored cover: the schema default applies only to a field left out; a
      `null` is stored as `null`. */
  function StoredCover(c: CoverField): (r: Option<string>)
    ensures c.Absent? ==> r == Some(DefaultBackgroundImage)
    ensures c.Null? <==> r.None?
    ensures c.Url? ==> r == Some(c.url)
  {
    match c
    case Absent => Some(DefaultBackgroundImage)
    case Null => None
    case Url(u) => Some(u)
  }

  /** The body of `PUT /:id`, with the same convention for falsy fields. */
  datatype UpdateBody = UpdateBody(gameTitle: string, platform: string, status: string, rating: int)

  /** `!rawgId || !gameTitle || !platforms`. */
  predicate MissingFields(b: CreateBody)
  {
    b.rawgId == 0 || b.gameTitle == [] || b.platforms == []
  }

  /** `UserGame.findOne({ user, rawgId })` finds a document. */
  predicate HasEntry(table: map<EntryId, Entry>, user: UserId, rawgId: int)
  {
    exists k :: k in table && table[k].user == user && table[k].rawgId == rawgId
  }

  /** The document `new UserGame({...})` builds: `platforms` goes to `platform`,
      the schema's setters trim the title and platform, a falsy status becomes
      `'Backlog'`, the cover is stored as `StoredCover` says, and the rating
      starts unset. The creation stamp comes from the same counter as the id. */
  function NewEntry(id: EntryId, user: UserId, b: CreateBody): Entry
  {
    Entry(
      id := id,
      user := user,
      rawgId := b.rawgId,
      backgroundImage := StoredCover(b.backgroundImage),
      gameTitle := Trim(b.gameTitle),
      platform := Trim(b.platforms),
      status := if b.status != [] then b.status else DefaultStatus,
      rating := None,
      createdAt := id)
  }

  /** `newGame.save()` passes the schema's validators exactly when the trimmed
      title and platform are non-empty and the (defaulted) status is in the enum. */
  lemma NewEntryWellFormedIff(id: EntryId, user: UserId, b: CreateBody)
    ensures WellFormed(NewEntry(id, user, b)) <==>
      && Trim(b.gameTitle) != []
      && Trim(b.platforms) != []
      && (b.status == [] || ParseStatus(b.status).Some?)
  {
  }

  /** The update document `gameFields` applied with `$set`: each of title,
      platform, status and rating is replaced only when the request supplied a
      truthy value (strings pass through the schema's trim setter), and nothing
      else in the entry moves. No validators run on this path. */
  function ApplyFields(e: Entry, b: UpdateBody): (r: Entry)
    ensures r.id == e.id && r.user == e.user && r.rawgId == e.rawgId
    ensures r.backgroundImage == e.backgroundImage && r.createdAt == e.createdAt
  {
    e.(
      gameTitle := if b.gameTitle != [] then Trim(b.gameTitle) else e.gameTitle,
      platform := if b.platform != [] then Trim(b.platform) else e.platform,
      status := if b.status != [] then b.status else e.status,
      rating := if b.rating != 0 then Some(b.rating) else e.rating)
  }

  /** An update with no truthy field leaves the entry as it was. */
  lemma ApplyNothing(e: Entry)
    ensures ApplyFields(e, UpdateBody([], [], [], 0)) == e
  {
  }

  /** Re-sending the same update changes nothing more. */
  lemma ApplyFieldsIdempotent(e: Entry, b: UpdateBody)
    ensures ApplyFields(ApplyFields(e, b), b) == ApplyFields(e, b)
  {
    var once := ApplyFields(e, b);
    var twice := ApplyFields(once, b);
    if b.gameTitle != [] {
      TrimIdempotent(b.gameTitle);
    }
    if b.platform != [] {
      TrimIdempotent(b.platform);
    }
    assert twice.gameTitle == once.gameTitle && twice.platform == once.platform;
    assert twice.status == once.status && twice.rating == once.rating;
  }

  /** An update keeps an entry well formed when every field it supplies is one the
      schema would accept. */
  lemma ApplyFieldsKeepsWellFormed(e: Entry, b: UpdateBody)
    requires WellFormed(e)
    requires b.gameTitle != [] ==> Trim(b.gameTitle) != []
    requires b.platform != [] ==> Trim(b.platform) != []
    requires b.status != [] ==> ParseStatus(b.status).Some?
    requires b.rating != 0 ==> MinRating <= b.rating <= MaxRating
    ensures WellFormed(ApplyFields(e, b))
  {
  }

  /** Because the update path runs no validators, a well-formed entry can be given
      a status outside the enum and a rating outside 1..5. */
  lemma UpdateSkipsValidation(e: Entry)
    requires WellFormed(e)
    ensures !WellFormed(ApplyFields(e, UpdateBody([], [], "Finalizado", 0)))
    ensures !WellFormed(ApplyFields(e, UpdateBody([], [], [], 9)))
  {
  }

  /** Adding an entry whose (user, rawgId) pair is new keeps the index unique. */
  lemma InsertKeepsUnique(table: map<EntryId, Entry>, id: EntryId, e: Entry)
    requires UniquePerUser(table)
    requires id !in table
    requires !HasEntry(table, e.user, e.rawgId)
    ensures UniquePerUser(table[id := e])
  {
    var t := table[id := e];
    forall a, b | a in t && b in t && t[a].user == t[b].user && t[a].rawgId == t[b].rawgId
      ensures a == b
    {
      if a != id && b != id {
        assert t[a] == table[a] && t[b] == table[b];
      }
    }
  }

  /** Updating an entry in place keeps the index unique: owner and rawgId never change. */
  lemma ApplyKeepsUnique(table: map<EntryId, Entry>, id: EntryId, b: UpdateBody)
    requires UniquePerUser(table)
    requires id in table
    ensures UniquePerUser(table[id := ApplyFields(table[id], b)])
  {
    var t := table[id := ApplyFields(table[id], b)];
    forall x, y | x in t && y in t && t[x].user == t[y].user && t[x].rawgId == t[y].rawgId
      ensures x == y
    {
      assert t[x].user == table[x].user && t[x].rawgId == table[x].rawgId;
      assert t[y].user == table[y].user && t[y].rawgId == table[y].rawgId;
    }
  }

  /** The collection's invariant: every entry is filed under its own id, its
      creation stamp is that id, every id was issued before `nextId`, and the
      (user, rawgId) index is unique. */
  predicate TableInvariant(table: map<EntryId, Entry>, nextId: nat)
  {
    && (forall id :: id in table ==> table[id].id == id && table[id].createdAt == id && id < nextId)
    && UniquePerUser(table)
  }

  /** Storing a new entry under the next id keeps the invariant. */
  lemma InsertKeepsInvariant(table: map<EntryId, Entry>, nextId: nat, e: Entry)
    requires TableInvariant(table, nextId)
    requires e.id == nextId && e.createdAt == nextId
    requires !HasEntry(table, e.user, e.rawgId)
    ensures nextId !in table
    ensures TableInvariant(table[nextId := e], nextId + 1)
  {
    InsertKeepsUnique(table, nextId, e);
  }

  /** The `UserGame` collection as the routes see it. */
  class LibraryStore {
    var table: map<EntryId, Entry>
    /** The next document id; it also serves as the creation clock. */
    var nextId: nat

    ghost predicate Valid()
      reads this
    {
      TableInvariant(table, nextId)
    }

    constructor ()
      ensures Valid() && table == map[] && nextId == 0
    {
      table := map[];
      nextId := 0;
    }

    /** `POST /`: required fields, then the duplicate check, then the schema's
        validators on save; only a request that passes all three stores anything. */
    method Create(user: UserId, body: CreateBody) returns (res: Response<Entry>)
      requires Valid()
      modifies this
      ensures Valid()
      ensures MissingFields(body) ==> res == Failure(400, MsgIncomplete)
      ensures !MissingFields(body) && HasEntry(old(table), user, body.rawgId) ==>
        res == Failure(400, MsgDuplicate)
      ensures (!MissingFields(body) && !HasEntry(old(table), user, body.rawgId)
        && !WellFormed(NewEntry(old(nextId), user, body))) ==> res == Failure(500, MsgSaveError)
      ensures (!MissingFields(body) && !HasEntry(old(table), user, body.rawgId)
        && WellFormed(NewEntry(old(nextId), user, body))) ==> res.Success?
      ensures res.Failure? ==> table == old(table) && nextId == old(nextId)
      ensures res.Success? ==>
        && res.status == 201
        && res.body == NewEntry(old(nextId), user, body)
        && old(nextId) !in old(table)
        && table == old(table)[old(nextId) := res.body]
        && nextId == old(nextId) + 1
      ensures res.Success? ==>
        && res.body.user == user && res.body.rawgId == body.rawgId
        && res.body.gameTitle == Trim(body.gameTitle) && res.body.platform == Trim(body.platforms)
        && res.body.status == (if body.status != [] then body.status else DefaultStatus)
        && res.body.backgroundImage == StoredCover(body.backgroundImage)
        && res.body.rating == None
        && WellFormed(res.body)
    {
      if MissingFields(body) {
        return Failure(400, MsgIncomplete);
      }
      if HasEntry(table, user, body.rawgId) {
        return Failure(400, MsgDuplicate);
      }
      var e := NewEntry(nextId, user, body);
      if !WellFormed(e) {
        return Failure(500, MsgSaveError);
      }
      InsertKeepsInvariant(table, nextId, e);
      table := table[nextId := e];
      nextId := nextId + 1;
      res := Success(201, e);
    }

    /** `GET /`: the caller's entries, newest first. */
    method List(user: UserId) returns (r: seq<Entry>)
      requires Valid()
      ensures forall i :: 0 <= i < |r| ==> r[i].id in table && table[r[i].id] == r[i] && r[i].user == user
      ensures forall id :: id in table && table[id].user == user ==> table[id] in r
      ensures forall i, j :: 0 <= i < j < |r| ==> r[i].createdAt > r[j].createdAt
    {
      r := [];
      var k := nextId;
      while k > 0
        invariant k <= nextId
        invariant forall i :: 0 <= i < |r| ==>
          r[i].id in table && table[r[i].id] == r[i] && r[i].user == user && k <= r[i].id
        invariant forall id :: id in table && table[id].user == user && k <= id ==> table[id] in r
        invariant forall i, j :: 0 <= i < j < |r| ==> r[i].createdAt > r[j].createdAt
      {
        k := k - 1;
        if k in table && table[k].user == user {
          r := r + [table[k]];
        }
      }
    }

    /** `PUT /:id`: 404 for an unknown id, then 401 for another user's entry,
        otherwise the truthy fields are set and the updated entry is returned. */
    method Update(user: UserId, id: EntryId, body: UpdateBody) returns (res: Response<Entry>)
      requires Valid()
      modifies this
      ensures Valid() && nextId == old(nextId)
      ensures id !in old(table) ==> res == Failure(404, MsgNotFound) && table == old(table)
      ensures id in old(table) && old(table)[id].user != user ==>
        res == Failure(401, MsgUnauthorized) && table == old(table)
      ensures id in old(table) && old(table)[id].user == user ==>
        && res == Success(200, ApplyFields(old(table)[id], body))
        && table == old(table)[id := res.body]
    {
      if id !in table {
        return Failure(404, MsgNotFound);
      }
      if table[id].user != user {
        return Failure(401, MsgUnauthorized);
      }
      var e := ApplyFields(table[id], body);
      ApplyKeepsUnique(table, id, body);
      table := table[id := e];
      res := Success(200, e);
    }

    /** `DELETE /:id`: the same 404-then-401 checks; the owner's request removes
        exactly that entry, so repeating it then yields 404. */
    method Delete(user: UserId, id: EntryId) returns (res: Response<string>)
      requires Valid()
      modifies this
      ensures Valid() && nextId == old(nextId)
      ensures id !in old(table) ==> res == Failure(404, MsgNotFound) && table == old(table)
      ensures id in old(table) && old(table)[id].user != user ==>
        res == Failure(401, MsgUnauthorized) && table == old(table)
      ensures id in old(table) && old(table)[id].user == user ==>
        res == Success(200, MsgRemoved) && table == old(table) - {id} && id !in table
    {
      if id !in table {
        return Failure(404, MsgNotFound);
      }
      if table[id].user != user {
        return Failure(401, MsgUnauthorized);
      }
      table := table - {id};
      res := Success(200, MsgRemoved);
    }
  }
}
