/** The ragchat SessionService: chat sessions kept in a repository by id.
    A new session gets a normalised title; reading skips soft-deleted
    sessions; updating and deleting a missing or deleted session fail and
    save nothing; deleting only marks the session. The random id and the
    clock are parameters. */
module SessionService {
  import opened Common
  import opened JavaStrings

  /** A chat session row. Times are instants in the clock's unit. */
  datatype ChatSession = ChatSession(
    id: Uuid,
    userId: string,
    title: string,
    favorite: bool,
    deleted: bool,
    createdAt: int,
    updatedAt: int)

  /** "Session not found": the IllegalArgumentException of update and delete. */
  datatype SessionError = SessionNotFound

  /** The repository's rows by id. */
  type Repo = map<Uuid, ChatSession>

  const NewChatTitle := "New Chat"

  /** The title a new session gets: "New Chat" for a missing or blank title,
      otherwise the title trimmed. */
  function NormalizeTitle(title: Option<string>): string
  {
    if title.None? || IsBlank(title.value) then NewChatTitle else Trim(title.value)
  }

  /** The session createSession builds. */
  function Created(userId: string, title: Option<string>, id: Uuid, now: int): ChatSession
  {
    ChatSession(id, userId, NormalizeTitle(title), false, false, now, now)
  }

  /** get over a repository: the session unless it is missing or deleted. */
  function Find(repo: Repo, id: Uuid): (r: Option<ChatSession>)
    ensures r.Some? <==> id in repo && !repo[id].deleted
    ensures r.Some? ==> r.value == repo[id]
  {
    if id in repo && !repo[id].deleted then Some(repo[id]) else None
  }

  /** A session after update: a given title replaces the old one as it is,
      untrimmed; a given favourite flag replaces the old one; the update
      time is `now`. */
  function Updated(s: ChatSession, title: Option<string>, favorite: Option<bool>, now: int): ChatSession
  {
    s.(title := if title.Some? then title.value else s.title,
       favorite := if favorite.Some? then favorite.value else s.favorite,
       updatedAt := now)
  }

  /** A session after delete: marked deleted, at `now`. */
  function Deleted(s: ChatSession, now: int): ChatSession
  {
    s.(deleted := true, updatedAt := now)
  }

  class SessionService {
    var sessions: Repo

    constructor ()
      ensures sessions == map[]
    {
      sessions := map[];
    }

    /** createSession: a session with the fresh id, the user, the normalised
        title, neither favourite nor deleted, created and updated at `now`,
        saved under its id. */
    method CreateSession(userId: string, title: Option<string>, id: Uuid, now: int) returns (s: ChatSession)
      modifies this
      ensures s == Created(userId, title, id, now)
      ensures sessions == old(sessions)[id := s]
    {
      s := ChatSession(id, userId, NormalizeTitle(title), false, false, now, now);
      sessions := sessions[id := s];
    }

    /** get: the session unless it is missing or deleted. */
    function Get(id: Uuid): (r: Option<ChatSession>)
      reads this
      ensures r.Some? <==> id in sessions && !sessions[id].deleted
      ensures r.Some? ==> r.value == sessions[id]
    {
      Find(sessions, id)
    }

    /** update: fails and saves nothing for a missing or deleted session;
        otherwise saves and answers the updated session. */
    method Update(id: Uuid, title: Option<string>, favorite: Option<bool>, now: int)
      returns (r: Result<ChatSession, SessionError>)
      modifies this
      ensures old(Get(id)).None? ==> r == Err(SessionNotFound) && sessions == old(sessions)
      ensures old(Get(id)).Some? ==>
        r == Ok(Updated(old(sessions)[id], title, favorite, now)) && sessions == old(sessions)[id := r.value]
    {
      var found := Get(id);
      if found.None? {
        return Err(SessionNotFound);
      }
      var s := found.value;
      if title.Some? {
        s := s.(title := title.value);
      }
      if favorite.Some? {
        s := s.(favorite := favorite.value);
      }
      s := s.(updatedAt := now);
      sessions := sessions[id := s];
      r := Ok(s);
    }

    /** delete: fails and saves nothing for a missing or deleted session;
        otherwise marks the session deleted and saves it. */
    method Delete(id: Uuid, now: int) returns (r: Result<(), SessionError>)
      modifies this
      ensures old(Get(id)).None? ==> r == Err(SessionNotFound) && sessions == old(sessions)
      ensures old(Get(id)).Some? ==> r == Ok(()) && sessions == old(sessions)[id := Deleted(old(sessions)[id], now)]
    {
      var found := Get(id);
      if found.None? {
        return Err(SessionNotFound);
      }
      var s := found.value;
      s := s.(deleted := true);
      s := s.(updatedAt := now);
      sessions := sessions[id := s];
      r := Ok(());
    }
  }

  // ---------------------------------------------------------------------
  // Properties

  /** A new session's title is already trimmed, so normalising is stable:
      "New Chat" or the trimmed title never changes under trim. */
  lemma NormalizedTitleIsTrimmed(title: Option<string>)
    ensures Trim(NormalizeTitle(title)) == NormalizeTitle(title)
  {
    if title.None? || IsBlank(title.value) {
      assert TrimStartIndex(NewChatTitle, 0) == 0;
      assert TrimEndIndex(NewChatTitle, 0, |NewChatTitle|) == |NewChatTitle|;
      assert NewChatTitle[0..|NewChatTitle|] == NewChatTitle;
    } else {
      TrimIdempotent(title.value);
    }
  }

  /** A new session's title is empty exactly when the given title is not
      blank but is made only of characters up to U+0020, such as the control
      character U+0001 that isBlank does not count as whitespace yet trim
      cuts. */
  lemma NormalizedTitleEmpty(title: Option<string>)
    ensures NormalizeTitle(title) == "" <==>
      title.Some? && !IsBlank(title.value) && forall i :: 0 <= i < |title.value| ==> title.value[i] <= ' '
  {
    if title.Some? {
      TrimEmpty(title.value);
    }
  }

  /** After createSession the session is found as built, and every other
      id is found as before. */
  lemma CreateThenGet(repo: Repo, userId: string, title: Option<string>, id: Uuid, now: int, other: Uuid)
    requires other != id
    ensures var after := repo[id := Created(userId, title, id, now)];
      Find(after, id) == Some(Created(userId, title, id, now)) &&
      Find(after, other) == Find(repo, other)
  {
  }

  /** After delete the session is no longer found, though its row is kept
      with everything but the deleted flag and the update time unchanged;
      so a later update or delete of it fails. */
  lemma DeleteThenGet(repo: Repo, id: Uuid, now: int)
    requires Find(repo, id).Some?
    ensures var after := repo[id := Deleted(repo[id], now)];
      Find(after, id).None? && id in after &&
      after[id].(deleted := false, updatedAt := repo[id].updatedAt) == repo[id]
  {
  }

  /** An update keeps the session visible and its identity, owner, creation
      time and flags it was not given; updating twice with the same values
      is the same as updating once. */
  lemma UpdateKeepsSession(s: ChatSession, title: Option<string>, favorite: Option<bool>, now: int, later: int)
    requires !s.deleted
    ensures var u := Updated(s, title, favorite, now);
      !u.deleted && u.id == s.id && u.userId == s.userId && u.createdAt == s.createdAt &&
      (title.None? ==> u.title == s.title) && (favorite.None? ==> u.favorite == s.favorite) &&
      Updated(u, title, favorite, later) == Updated(s, title, favorite, later)
  {
  }
}
