/**
 * The playlist service of the playlist back end: the `playlists` and `videos`
 * tables as two maps in one repository object, the view gate every read goes
 * through (`findOne`), the owner gate of update, remove and share, the filter
 * query, and sharing by appending emails to `sharedWith`.
 */
module PlaylistsService {
  import opened Wrappers
  import opened Text
  import opened SqlLike

  /**
   * A row of `playlists`, or a playlist entity before it is saved. Nullable
   * columns are options; `tags` and `sharedWith` are TypeORM `simple-array`
   * columns, held here as lists (see ReadBack for what the database gives
   * back). The `videos` relation is the set of rows of `videos` that point here.
   */
  datatype Playlist = Playlist(
    id: string,
    title: string,
    description: Option<string>,
    userId: string,
    isPublic: bool,
    tags: Option<seq<string>>,
    category: Option<string>,
    sharedWith: Option<seq<string>>)

  /** A row of `videos`; `playlistId` is the foreign key, deleted in cascade. */
  datatype Video = Video(
    id: string,
    title: string,
    url: string,
    description: Option<string>,
    thumbnailUrl: Option<string>,
    duration: Option<string>,
    playlistId: string)

  /** The two exceptions the services throw: `NotFoundException` and `ForbiddenException`. */
  datatype Error = NotFound | Forbidden

  /** The body of `POST /playlists`; absent optional fields are `None`. */
  datatype CreatePlaylistDto = CreatePlaylistDto(
    title: string,
    description: Option<string>,
    tags: Option<seq<string>>,
    category: Option<string>,
    isPublic: Option<bool>)

  /** The body of `PATCH /playlists/:id`: every field of the create body, each optional. */
  datatype UpdatePlaylistDto = UpdatePlaylistDto(
    title: Option<string>,
    description: Option<string>,
    tags: Option<seq<string>>,
    category: Option<string>,
    isPublic: Option<bool>)

  /** The query of `GET /playlists/filter`. */
  datatype FilterPlaylistDto = FilterPlaylistDto(category: Option<string>, tags: Option<seq<string>>)

  /**
   * The view gate of `findOne`: the caller owns the playlist, or it is public,
   * or `sharedWith` holds the caller's id. The list is filled with emails, yet
   * it is searched for the user id.
   */
  predicate CanView(p: Playlist, userId: string) {
    p.userId == userId || p.isPublic || (p.sharedWith.Some? && userId in p.sharedWith.value)
  }

  /** The owner gate of update, remove, share and the video operations. */
  predicate IsOwner(p: Playlist, userId: string) {
    p.userId == userId
  }

  /** Whoever passes the owner gate passes the view gate, so `findOne` never stops an owner. */
  lemma OwnerCanView(p: Playlist, userId: string)
    requires IsOwner(p, userId)
    ensures CanView(p, userId)
  {
  }

  /**
   * A caller whose id holds no `@` (a generated uuid) gains nothing from a
   * `sharedWith` list of email addresses: on a private playlist of someone else
   * the view gate stays shut.
   */
  lemma EmailShareGrantsNoView(p: Playlist, userId: string)
    requires '@' !in userId
    requires p.sharedWith.Some? ==> forall e :: e in p.sharedWith.value ==> '@' in e
    ensures CanView(p, userId) <==> p.userId == userId || p.isPublic
  {
  }

  /** `repository.update(id, dto)`: every field the patch carries replaces the stored one. */
  function ApplyPatch(p: Playlist, dto: UpdatePlaylistDto): (r: Playlist)
    ensures r.id == p.id && r.userId == p.userId && r.sharedWith == p.sharedWith
    ensures dto.title.Some? ==> r.title == dto.title.value
    ensures dto.title.None? ==> r.title == p.title
    ensures dto.description.Some? ==> r.description == dto.description
    ensures dto.description.None? ==> r.description == p.description
    ensures dto.tags.Some? ==> r.tags == dto.tags
    ensures dto.tags.None? ==> r.tags == p.tags
    ensures dto.category.Some? ==> r.category == dto.category
    ensures dto.category.None? ==> r.category == p.category
    ensures dto.isPublic.Some? ==> r.isPublic == dto.isPublic.value
    ensures dto.isPublic.None? ==> r.isPublic == p.isPublic
  {
    p.(title := dto.title.GetOr(p.title),
       description := if dto.description.Some? then dto.description else p.description,
       tags := if dto.tags.Some? then dto.tags else p.tags,
       category := if dto.category.Some? then dto.category else p.category,
       isPublic := dto.isPublic.GetOr(p.isPublic))
  }

  /** Patching twice with the same body changes nothing more. */
  lemma ApplyPatchIdempotent(p: Playlist, dto: UpdatePlaylistDto)
    ensures ApplyPatch(ApplyPatch(p, dto), dto) == ApplyPatch(p, dto)
  {
  }

  /**
   * A `simple-array` column as the database gives it back: the list is written
   * as its comma-joined text, and that text is read back split on commas, an
   * empty text giving the empty list.
   */
  function ReadBack(list: seq<string>): (r: seq<string>)
    ensures Join(r, ",") == Join(list, ",")
    ensures forall k :: 0 <= k < |r| ==> ',' !in r[k]
  {
    var text := Join(list, ",");
    if text == [] then []
    else
      JoinSplit(text, ',');
      SplitPiecesNoSep(text, ',');
      Split(text, ',')
  }

  /** Reading back what was read back changes nothing. */
  lemma ReadBackIdempotent(list: seq<string>)
    ensures ReadBack(ReadBack(list)) == ReadBack(list)
  {
  }

  /** A list of non-empty comma-free pieces comes back as it was written. */
  lemma ReadBackCommaFree(list: seq<string>)
    requires forall k :: 0 <= k < |list| ==> list[k] != [] && ',' !in list[k]
    ensures ReadBack(list) == list
  {
    if list != [] {
      assert Join(list, ",") != [] by {
        if |list| == 1 {
          assert Join(list, ",") == list[0];
        } else {
          assert Join(list, ",") == list[0] + "," + Join(list[1..], ",");
        }
      }
      SplitJoin(list, ',');
    }
  }

  /** A tag holding a comma comes back as two tags, and a lone empty tag as none. */
  lemma ReadBackResplits(a: string, b: string)
    requires ',' !in a && ',' !in b
    ensures ReadBack([a + [','] + b]) == [a, b]
    ensures ReadBack([""]) == []
  {
    assert Join([a + [','] + b], ",") == a + [','] + b;
    SplitAround(a, ',', b);
    SplitNoSep(a, ',');
    SplitNoSep(b, ',');
  }

  /** An optional `simple-array` column read back; NULL stays NULL. */
  function ReadBackColumn(column: Option<seq<string>>): Option<seq<string>> {
    if column.Some? then Some(ReadBack(column.value)) else None
  }

  /** The row the database holds after saving the entity p. */
  function Stored(p: Playlist): (r: Playlist)
    ensures r.id == p.id && r.title == p.title && r.description == p.description && r.userId == p.userId
    ensures r.isPublic == p.isPublic && r.category == p.category
    ensures r.tags.Some? <==> p.tags.Some?
    ensures r.tags.Some? ==> Join(r.tags.value, ",") == Join(p.tags.value, ",")
    ensures r.sharedWith.Some? <==> p.sharedWith.Some?
    ensures r.sharedWith.Some? ==> Join(r.sharedWith.value, ",") == Join(p.sharedWith.value, ",")
  {
    p.(tags := ReadBackColumn(p.tags), sharedWith := ReadBackColumn(p.sharedWith))
  }

  /** Saving a stored row again stores the same row. */
  lemma StoredIdempotent(p: Playlist)
    ensures Stored(Stored(p)) == Stored(p)
  {
    if p.tags.Some? {
      ReadBackIdempotent(p.tags.value);
    }
    if p.sharedWith.Some? {
      ReadBackIdempotent(p.sharedWith.value);
    }
  }

  /** The text a `simple-array` column holds: the list joined with commas, or NULL. */
  function StoredTags(p: Playlist): Option<string> {
    if p.tags.Some? then Some(Join(p.tags.value, ",")) else None
  }

  /** `playlist.tags LIKE '%tag%'`; a NULL column matches nothing. */
  predicate TagClause(p: Playlist, tag: string) {
    StoredTags(p).Some? && Like(ContainsPattern(tag), StoredTags(p).value)
  }

  /**
   * The tag clauses as the loop builds them: every pass adds a clause on the
   * one parameter `:tag` and binds it anew, and a query builder keeps one
   * value per parameter name, so every clause reads the last tag's pattern.
   * An empty list adds no clause.
   */
  predicate TagClausesAsBound(p: Playlist, tags: seq<string>) {
    tags == [] || TagClause(p, tags[|tags| - 1])
  }

  /**
   * The WHERE clause of `filterPlaylists`: owner or public, then the category
   * when the filter has a non-empty one, then the tag clauses as bound.
   */
  predicate MatchesFilter(p: Playlist, filter: FilterPlaylistDto, userId: string) {
    && (p.userId == userId || p.isPublic)
    && (filter.category.None? || filter.category.value == [] || p.category == filter.category)
    && (filter.tags.None? || TagClausesAsBound(p, filter.tags.value))
  }

  /** The filter the loop is evidently meant to build: one clause per tag, each with its own pattern. */
  predicate MatchesEveryTag(p: Playlist, filter: FilterPlaylistDto, userId: string) {
    && (p.userId == userId || p.isPublic)
    && (filter.category.None? || filter.category.value == [] || p.category == filter.category)
    && (filter.tags.Some? ==> forall t :: t in filter.tags.value ==> TagClause(p, t))
  }

  /** Only the last requested tag decides: the earlier ones are never tested. */
  lemma FilterTestsLastTag(p: Playlist, category: Option<string>, tags: seq<string>, last: string, userId: string)
    ensures MatchesFilter(p, FilterPlaylistDto(category, Some(tags + [last])), userId)
            <==> MatchesFilter(p, FilterPlaylistDto(category, Some([last])), userId)
  {
    assert (tags + [last])[|tags + [last]| - 1] == last;
  }

  /**
   * A public playlist tagged only `jazz` is selected by the tags `rock, jazz`,
   * although it does not carry `rock`.
   */
  lemma FilterIgnoresEarlierTags(p: Playlist)
    requires p.isPublic && p.tags == Some(["jazz"])
    ensures MatchesFilter(p, FilterPlaylistDto(None, Some(["rock", "jazz"])), "caller")
    ensures !MatchesEveryTag(p, FilterPlaylistDto(None, Some(["rock", "jazz"])), "caller")
  {
    var stored := Join(p.tags.value, ",");
    assert stored == "jazz";
    assert OccursAt("jazz", stored, 0);
    TagClauseIsSubstring(p, "jazz");
    TagClauseIsSubstring(p, "rock");
    assert !OccursAt("rock", stored, 0);
    assert "rock" in ["rock", "jazz"];
  }

  /** Whatever the intended filter selects, the filter as written selects too. */
  lemma EveryTagMatchesFilter(p: Playlist, filter: FilterPlaylistDto, userId: string)
    requires MatchesEveryTag(p, filter, userId)
    ensures MatchesFilter(p, filter, userId)
  {
    if filter.tags.Some? && filter.tags.value != [] {
      var tags := filter.tags.value;
      assert tags[|tags| - 1] in tags;
    }
  }

  /** Every filter result passes the view gate. */
  lemma FilterMatchesAreViewable(p: Playlist, filter: FilterPlaylistDto, userId: string)
    requires MatchesFilter(p, filter, userId)
    ensures CanView(p, userId)
  {
  }

  /**
   * A private playlist of another user never appears in a filter result, even
   * when its `sharedWith` lists the caller.
   */
  lemma FilterSkipsShared(p: Playlist, filter: FilterPlaylistDto, userId: string)
    requires p.userId != userId && !p.isPublic
    ensures !MatchesFilter(p, filter, userId)
  {
  }

  /** Under the intended filter, requesting one more tag can only narrow the result. */
  lemma FilterMoreTagsNarrows(p: Playlist, category: Option<string>, tags: seq<string>, extra: string, userId: string)
    requires MatchesEveryTag(p, FilterPlaylistDto(category, Some(tags + [extra])), userId)
    ensures MatchesEveryTag(p, FilterPlaylistDto(category, Some(tags)), userId)
    ensures TagClause(p, extra)
  {
    assert extra in tags + [extra];
    forall t | t in tags ensures TagClause(p, t) {
      assert t in tags + [extra];
    }
  }

  /**
   * For tags without LIKE wildcards, a tag clause is a substring test on the
   * comma-joined list, not a test on single tags.
   */
  lemma TagClauseIsSubstring(p: Playlist, tag: string)
    requires p.tags.Some?
    requires forall k :: 0 <= k < |tag| ==> !IsWildcard(tag[k])
    ensures TagClause(p, tag) <==> IsSubstring(tag, Join(p.tags.value, ","))
  {
    LikeContains(tag, Join(p.tags.value, ","));
  }

  /** The tag `music` selects a playlist tagged only `live-music-2024`. */
  lemma TagClausePartialWord(p: Playlist)
    requires p.tags == Some(["live-music-2024"])
    ensures TagClause(p, "music")
  {
    var stored := Join(p.tags.value, ",");
    assert stored == "live-music-2024";
    assert OccursAt("music", stored, 5);
    TagClauseIsSubstring(p, "music");
  }

  /** The tag `k,p` selects a playlist tagged `rock` and `pop`: the match crosses the comma. */
  lemma TagClauseCrossesComma(p: Playlist)
    requires p.tags == Some(["rock", "pop"])
    ensures TagClause(p, "k,p")
  {
    var stored := Join(p.tags.value, ",");
    assert stored == "rock,pop";
    assert OccursAt("k,p", stored, 3);
    TagClauseIsSubstring(p, "k,p");
  }

  /** `sharedWith` read as a list: a NULL column is the empty list. */
  function SharedOrEmpty(p: Playlist): seq<string> {
    if p.sharedWith.Some? then p.sharedWith.value else []
  }

  /** The `forEach`/`push` of `sharePlaylist`: each email not yet in the list goes to its end. */
  function AppendAbsent(list: seq<string>, emails: seq<string>): (r: seq<string>)
    ensures |list| <= |r| <= |list| + |emails|
    decreases |emails|
  {
    if emails == [] then list
    else AppendAbsent(if emails[0] in list then list else list + [emails[0]], emails[1..])
  }

  /** Sharing keeps the old list as a prefix and only adds requested emails. */
  lemma {:induction false} AppendAbsentExtends(list: seq<string>, emails: seq<string>)
    ensures |AppendAbsent(list, emails)| >= |list|
    ensures AppendAbsent(list, emails)[..|list|] == list
    ensures forall e :: e in AppendAbsent(list, emails) <==> e in list || e in emails
    decreases |emails|
  {
    if emails != [] {
      var next := if emails[0] in list then list else list + [emails[0]];
      AppendAbsentExtends(next, emails[1..]);
      assert next[..|list|] == list;
      assert emails == [emails[0]] + emails[1..];
    }
  }

  /** Sharing never introduces a duplicate. */
  lemma {:induction false} AppendAbsentNoDuplicates(list: seq<string>, emails: seq<string>)
    requires NoDuplicates(list)
    ensures NoDuplicates(AppendAbsent(list, emails))
    decreases |emails|
  {
    if emails != [] {
      var next := if emails[0] in list then list else list + [emails[0]];
      AppendAbsentNoDuplicates(next, emails[1..]);
    }
  }

  /** Emails already present are skipped. */
  lemma {:induction false} AppendAbsentPresent(list: seq<string>, emails: seq<string>)
    requires forall e :: e in emails ==> e in list
    ensures AppendAbsent(list, emails) == list
    decreases |emails|
  {
    if emails != [] {
      AppendAbsentPresent(list, emails[1..]);
    }
  }

  /** Repeating a share request leaves the list as the first request made it. */
  lemma AppendAbsentIdempotent(list: seq<string>, emails: seq<string>)
    ensures AppendAbsent(AppendAbsent(list, emails), emails) == AppendAbsent(list, emails)
  {
    AppendAbsentExtends(list, emails);
    AppendAbsentPresent(AppendAbsent(list, emails), emails);
  }

  /** Emails are handled in request order: two requests in a row act as their concatenation. */
  lemma {:induction false} AppendAbsentConcat(list: seq<string>, first: seq<string>, second: seq<string>)
    ensures AppendAbsent(list, first + second) == AppendAbsent(AppendAbsent(list, first), second)
    decreases |first|
  {
    if first == [] {
      assert first + second == second;
    } else {
      var next := if first[0] in list then list else list + [first[0]];
      assert (first + second)[0] == first[0];
      assert (first + second)[1..] == first[1..] + second;
      AppendAbsentConcat(next, first[1..], second);
    }
  }

  /** The playlist as `sharePlaylist` saves it. */
  function Shared(p: Playlist, emails: seq<string>): Playlist {
    p.(sharedWith := Some(AppendAbsent(SharedOrEmpty(p), emails)))
  }

  /**
   * The WHERE clause of `findAll`: owned, or public, or `sharedWith` equal to
   * the caller's id alone (the column's text compared with the id).
   */
  predicate ListedFor(p: Playlist, userId: string) {
    p.userId == userId || p.sharedWith == Some([userId]) || p.isPublic
  }

  /** The `playlists` and `videos` tables. */
  class Repository {
    var playlists: map<string, Playlist>
    var videos: map<string, Video>

    /**
     * Keys are the rows' ids, every row is as the database gives it back, and
     * every video points at a stored playlist.
     */
    ghost predicate Valid()
      reads this
    {
      && (forall id :: id in playlists ==> playlists[id].id == id && Stored(playlists[id]) == playlists[id])
      && (forall id :: id in videos ==> videos[id].id == id && videos[id].playlistId in playlists)
    }

    constructor ()
      ensures Valid() && playlists == map[] && videos == map[]
    {
      playlists := map[];
      videos := map[];
    }

    /**
     * `findOne`: a missing id is NotFound before any access check; a stored
     * playlist comes back only through the view gate.
     */
    function FindOne(id: string, userId: string): (r: Result<Playlist, Error>)
      reads this
      ensures r.Failure? ==> (r.error == NotFound <==> id !in playlists)
      ensures r.Success? <==> id in playlists && CanView(playlists[id], userId)
      ensures r.Success? ==> r.value == playlists[id]
    {
      if id !in playlists then Failure(NotFound)
      else if !CanView(playlists[id], userId) then Failure(Forbidden)
      else Success(playlists[id])
    }

    /** `findAll`: every stored playlist its WHERE clause lists, each of which `findOne` would return. */
    function FindAll(userId: string): (r: map<string, Playlist>)
      reads this
      ensures forall id :: id in r <==> id in playlists && ListedFor(playlists[id], userId)
      ensures forall id :: id in r ==> r[id] == playlists[id] && FindOne(id, userId).Success?
    {
      map id | id in playlists && ListedFor(playlists[id], userId) :: playlists[id]
    }

    /** `filterPlaylists`: the stored playlists the filter's WHERE clause selects. */
    function FilterPlaylists(filter: FilterPlaylistDto, userId: string): (r: map<string, Playlist>)
      reads this
      ensures forall id :: id in r <==> id in playlists && MatchesFilter(playlists[id], filter, userId)
      ensures forall id :: id in r ==> r[id] == playlists[id] && FindOne(id, userId).Success?
    {
      map id | id in playlists && MatchesFilter(playlists[id], filter, userId) :: playlists[id]
    }

    /**
     * `create`: one new row owned by the caller, stored as read back; the
     * entity `save` returns keeps the lists as sent. Nothing else changes.
     */
    method Create(dto: CreatePlaylistDto, userId: string, newId: string) returns (p: Playlist)
      requires Valid() && newId !in playlists
      requires dto.title != []
      modifies this
      ensures Valid()
      ensures p == Playlist(newId, dto.title, dto.description, userId, dto.isPublic.GetOr(false),
                            dto.tags, dto.category, None)
      ensures playlists == old(playlists)[newId := Stored(p)] && videos == old(videos)
      ensures FindOne(newId, userId) == Success(Stored(p))
    {
      p := Playlist(newId, dto.title, dto.description, userId, dto.isPublic.GetOr(false),
                    dto.tags, dto.category, None);
      StoredIdempotent(p);
      playlists := playlists[newId := Stored(p)];
    }

    /**
     * `update`: the view gate, then the owner gate; the owner's patch is
     * written and the row read back through `findOne`.
     */
    method Update(id: string, dto: UpdatePlaylistDto, userId: string) returns (r: Result<Playlist, Error>)
      requires Valid()
      modifies this
      ensures Valid() && videos == old(videos)
      ensures old(FindOne(id, userId)).Failure? ==> r == old(FindOne(id, userId)) && playlists == old(playlists)
      ensures old(FindOne(id, userId)).Success? && old(playlists[id]).userId != userId ==>
                r == Failure(Forbidden) && playlists == old(playlists)
      ensures id in old(playlists) && old(playlists[id]).userId == userId ==>
                r == Success(Stored(ApplyPatch(old(playlists[id]), dto)))
                && playlists == old(playlists)[id := Stored(ApplyPatch(old(playlists[id]), dto))]
    {
      var found := FindOne(id, userId);
      if found.Failure? {
        return found;
      }
      if found.value.userId != userId {
        return Failure(Forbidden);
      }
      StoredIdempotent(ApplyPatch(found.value, dto));
      playlists := playlists[id := Stored(ApplyPatch(found.value, dto))];
      OwnerCanView(playlists[id], userId);
      r := FindOne(id, userId);
    }

    /**
     * `remove`: the same two gates; the owner's playlist goes, and with it, by
     * the foreign key's cascade, every video that points at it.
     */
    method Remove(id: string, userId: string) returns (r: Result<(), Error>)
      requires Valid()
      modifies this
      ensures Valid()
      ensures old(FindOne(id, userId)).Failure? ==>
                r == Failure(old(FindOne(id, userId)).error) && playlists == old(playlists) && videos == old(videos)
      ensures old(FindOne(id, userId)).Success? && old(playlists[id]).userId != userId ==>
                r == Failure(Forbidden) && playlists == old(playlists) && videos == old(videos)
      ensures id in old(playlists) && old(playlists[id]).userId == userId ==>
                && r == Success(())
                && playlists == old(playlists) - {id}
                && videos == map v | v in old(videos) && old(videos)[v].playlistId != id :: old(videos)[v]
    {
      var found := FindOne(id, userId);
      if found.Failure? {
        return Failure(found.error);
      }
      if found.value.userId != userId {
        return Failure(Forbidden);
      }
      playlists := playlists - {id};
      videos := map v | v in videos && videos[v].playlistId != id :: videos[v];
      r := Success(());
    }

    /**
     * `sharePlaylist`: the same two gates; then each requested email that is
     * not yet in `sharedWith` as read back (a NULL list read as empty) is
     * pushed at its end. The entity is saved, and `save` returns it as pushed.
     */
    method SharePlaylist(id: string, emails: seq<string>, userId: string) returns (r: Result<Playlist, Error>)
      requires Valid()
      modifies this
      ensures Valid() && videos == old(videos)
      ensures old(FindOne(id, userId)).Failure? ==> r == old(FindOne(id, userId)) && playlists == old(playlists)
      ensures old(FindOne(id, userId)).Success? && old(playlists[id]).userId != userId ==>
                r == Failure(Forbidden) && playlists == old(playlists)
      ensures id in old(playlists) && old(playlists[id]).userId == userId ==>
                r == Success(Shared(old(playlists[id]), emails))
                && playlists == old(playlists)[id := Stored(Shared(old(playlists[id]), emails))]
    {
      var found := FindOne(id, userId);
      if found.Failure? {
        return found;
      }
      var playlist := found.value;
      if playlist.userId != userId {
        return Failure(Forbidden);
      }
      var shared := SharedOrEmpty(playlist);
      var i := 0;
      while i < |emails|
        invariant 0 <= i <= |emails|
        invariant AppendAbsent(shared, emails[i..]) == AppendAbsent(SharedOrEmpty(playlist), emails)
      {
        assert emails[i..][1..] == emails[i + 1..];
        if emails[i] !in shared {
          shared := shared + [emails[i]];
        }
        i := i + 1;
      }
      assert emails[i..] == [];
      playlist := playlist.(sharedWith := Some(shared));
      StoredIdempotent(playlist);
      playlists := playlists[id := Stored(playlist)];
      r := Success(playlist);
    }
  }
}
