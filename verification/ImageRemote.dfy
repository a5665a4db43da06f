/**
 What an image upload deals with (nanokvm/components/storage.py): the opened file, whose reads may be short, and the
 client's session with the device and the progress callback behind it. The environment chooses how short each read
 is, at which await an exception or cancellation is raised, and what other calls do to the session meanwhile.
 */
module ImageRemote {
  import opened Common
  import opened Version

  newtype Byte = x: int | 0 <= x < 256
  type Bytes = seq<Byte>

  /** What is awaited. All but `Detect`, the version request, are logged when they start. */
  datatype Action =
    | Delete(name: string)
    | Progress(count: nat)
    | Post(name: string, index: nat, totalChunks: nat, chunk: Bytes)
    | StreamPost(name: string)
    | Write(part: Bytes)
    | Detect

  function Min(a: int, b: int): int {
    if a < b then a else b
  }

  // ------------------------------------------------------------------- file

  /** The opened image file. Read number `i` returns at most `1 + shortness(i)` bytes. */
  class ImageFile {
    const content: Bytes
    const shortness: nat -> nat
    var pos: nat
    var readCount: nat

    ghost predicate Valid()
      reads this
    {
      pos <= |content|
    }

    constructor (content: Bytes, shortness: nat -> nat)
      ensures Valid() && this.content == content && pos == 0
    {
      this.content, this.shortness := content, shortness;
      pos, readCount := 0, 0;
    }

    /** `read(n)`: possibly short, empty only at the end of the file. */
    method Read(n: nat) returns (part: Bytes)
      requires Valid() && n > 0
      modifies this
      ensures Valid() && old(pos) <= pos && part == content[old(pos)..pos] && |part| <= n
      ensures part == [] <==> old(pos) == |content|
    {
      var k := Min(Min(n, 1 + shortness(readCount)), |content| - pos);
      part := content[pos..pos + k];
      pos := pos + k;
      readCount := readCount + 1;
    }
  }

  // ----------------------------------------------------------------- session

  /** The client's session: whether it has a token, and the cached application version. */
  datatype Session = Session(live: bool, version: Option<string>)

  /** What another call, or a 401, does to the session: a clear forgets the version too. */
  datatype Change = Lost | Renewed | Detected

  datatype Turn = Turn(raises: bool, changes: seq<Change>)

  /**
   `turn` says of each await, by its number and what is awaited, whether it raises and what happens to the session
   meanwhile. `device` is the application version the device reports.
   */
  datatype Env = Env(turn: (nat, Option<Action>) -> Turn, device: string)

  function Apply(env: Env, s: Session, c: Change): Session {
    match c
    case Lost => Session(false, None)
    case Renewed => s.(live := true)
    case Detected => s.(version := Some(env.device))
  }

  function After(env: Env, s: Session, changes: seq<Change>): Session
    decreases |changes|
  {
    if changes == [] then s else After(env, Apply(env, s, changes[0]), changes[1..])
  }

  /** The cached version, if there is one, is the device's. */
  predicate Knows(env: Env, s: Session) {
    s.version.Some? ==> s.version.value == env.device
  }

  /** Whatever raises, the session is never lost. */
  ghost predicate KeepsSession(env: Env) {
    forall i, a: Option<Action> :: Lost !in env.turn(i, a).changes
  }

  /** A session that is kept stays live, and what it knows of the device stays true. */
  ghost predicate Kept(env: Env, s: Session, s': Session) {
    (KeepsSession(env) && s.live ==> s'.live) && (Knows(env, s) ==> Knows(env, s'))
  }

  lemma {:induction false} AfterKeeps(env: Env, s: Session, changes: seq<Change>)
    ensures Lost !in changes && s.live ==> After(env, s, changes).live
    ensures Knows(env, s) ==> Knows(env, After(env, s, changes))
    decreases |changes|
  {
    if changes != [] {
      assert changes == [changes[0]] + changes[1..];
      AfterKeeps(env, Apply(env, s, changes[0]), changes[1..]);
    }
  }

  lemma AfterLost(env: Env, s: Session)
    ensures After(env, s, [Lost]) == Session(false, None) && After(env, s, []) == s
  {
    assert [Lost][1..] == [];
  }

  // ------------------------------------------------- the version requirement

  /** A version check: whether it raised or passed, the session it leaves, and how many awaits there have been. */
  datatype Checked = Checked(raised: bool, passes: bool, session: Session, at: nat)

  /**
   `application_version_at_least`. An unknown version is asked for when there is a token, and taken as supported
   when there is none; a custom build is supported too.
   */
  function CheckVersion(env: Env, s: Session, at: nat, minimum: string): Checked {
    if s.version.Some? then Checked(false, VersionAtLeast(s.version.value, minimum), s, at)
    else if !s.live then Checked(false, true, s, at)
    else
      var t := env.turn(at, Some(Detect));
      var after := After(env, s, t.changes);
      if t.raises then Checked(true, false, after, at + 1)
      else Checked(false, VersionAtLeast(env.device, minimum), after.(version := Some(env.device)), at + 1)
  }

  /** The first Pro application version that `delete_image` supports. */
  const DELETE_MINIMUM := "1.1.6"

  /** `delete_image`, begun in session `s` at await `at`, gets as far as its request. */
  predicate DeleteGoes(env: Env, s: Session, at: nat) {
    var c := CheckVersion(env, s, at, DELETE_MINIMUM);
    !c.raised && c.passes && c.session.live
  }

  /** One await: what was awaited, and the session before it. */
  datatype Awaited = Awaited(what: Option<Action>, before: Session)

  /** The awaits of `delete_image`: the version request if the version is unknown, and the request if it goes. */
  function DeleteAwaits(env: Env, s: Session, at: nat, name: string): seq<Awaited> {
    (if s.version.None? && s.live then [Awaited(Some(Detect), s)] else [])
    + if DeleteGoes(env, s, at) then [Awaited(Some(Delete(name)), CheckVersion(env, s, at, DELETE_MINIMUM).session)] else []
  }

  /** With a live session that knows the device, and a version request that does not raise, the device decides. */
  lemma DeleteGoesByDevice(env: Env, s: Session, at: nat)
    requires s.live && Knows(env, s) && KeepsSession(env) && !env.turn(at, Some(Detect)).raises
    ensures DeleteGoes(env, s, at) <==> VersionAtLeast(env.device, DELETE_MINIMUM)
  {
    AfterKeeps(env, s, env.turn(at, Some(Detect)).changes);
  }

  /**
   The session, the device and the callback. A request is sent, and logged, only with a live session; `past` are all
   the awaits so far.
   */
  class Remote {
    const env: Env
    var session: Session
    var log: seq<Action>
    var past: seq<Awaited>

    constructor (env: Env, session: Session)
      ensures this.env == env && this.session == session && log == [] && past == []
    {
      this.env, this.session := env, session;
      log, past := [], [];
    }

    /** Nothing but the POST of a chunk raises or touches the session. */
    ghost predicate Calm() {
      forall i, a: Option<Action> :: a.None? || !a.value.Post? ==> env.turn(i, a) == Turn(false, [])
    }

    ghost predicate Accepts(post: Action) {
      forall i :: env.turn(i, Some(post)) == Turn(false, [])
    }

    /** The device answers this POST with 401, which ends the session. */
    ghost predicate Refuses(post: Action) {
      forall i :: env.turn(i, Some(post)) == Turn(true, [Lost])
    }

    /** The POST raises, by a transport error or another status, and the session stays. */
    ghost predicate Fails(post: Action) {
      forall i :: env.turn(i, Some(post)) == Turn(true, [])
    }

    method Take(a: Option<Action>) returns (ok: bool)
      modifies this`past, this`session
      ensures past == old(past) + [Awaited(a, old(session))]
      ensures var t := env.turn(|old(past)|, a); ok == !t.raises && session == After(env, old(session), t.changes)
      ensures Kept(env, old(session), session)
    {
      var t := env.turn(|past|, a);
      AfterKeeps(env, session, t.changes);
      past := past + [Awaited(a, session)];
      ok := !t.raises;
      session := After(env, session, t.changes);
    }

    /** An await that is no request and no action. */
    method Await() returns (ok: bool)
      modifies this`past, this`session
      ensures past == old(past) + [Awaited(None, old(session))]
      ensures var t := env.turn(|old(past)|, None); ok == !t.raises && session == After(env, old(session), t.changes)
      ensures Calm() ==> ok && session == old(session)
      ensures Kept(env, old(session), session)
    {
      ok := Take(None);
    }

    /** A callback or a piece of a request's body: it is logged even when it then raises. */
    method Do(a: Action) returns (ok: bool)
      modifies this
      ensures log == old(log) + [a]
      ensures Calm() && !a.Post? ==> ok && session == old(session)
      ensures Kept(env, old(session), session)
    {
      log := log + [a];
      ok := Take(Some(a));
    }

    /** A request: without a live session it raises before anything is sent. */
    method Request(a: Action) returns (ok: bool)
      modifies this
      ensures log == old(log) + if old(session).live then [a] else []
      ensures past == old(past) + if old(session).live then [Awaited(Some(a), old(session))] else []
      ensures !old(session).live ==> !ok && session == old(session)
      ensures Kept(env, old(session), session)
      ensures Calm() && !a.Post? && old(session).live ==> ok && session == old(session)
      ensures Accepts(a) && old(session).live ==> ok && session == old(session)
      ensures Refuses(a) && old(session).live ==> !ok && !session.live
      ensures Fails(a) && old(session).live ==> !ok && session == old(session)
    {
      AfterLost(env, session);
      ok := false;
      if session.live {
        log := log + [a];
        ok := Take(Some(a));
      }
    }

    /** A GET that leaves no trace. */
    method Get() returns (ok: bool)
      modifies this`past, this`session
      ensures ok ==> old(session).live
      ensures Calm() && old(session).live ==> ok && session == old(session)
      ensures Kept(env, old(session), session)
    {
      ok := false;
      if session.live {
        ok := Await();
      }
    }

    method ReportProgress(callback: bool, count: nat) returns (ok: bool)
      modifies this
      ensures log == old(log) + Report(callback, count)
      ensures Calm() || !callback ==> ok && session == old(session)
      ensures Kept(env, old(session), session)
    {
      ok := true;
      if callback {
        ok := Do(Progress(count));
      }
    }

    /** Whether the application version is at least `minimum`; None when the version request raises. */
    method AtLeast(minimum: string) returns (r: Option<bool>)
      modifies this`past, this`session
      ensures var c := CheckVersion(env, old(session), |old(past)|, minimum);
              && session == c.session && r == (if c.raised then None else Some(c.passes))
              && past == old(past) + if old(session).version.None? && old(session).live then [Awaited(Some(Detect), old(session))] else []
      ensures Kept(env, old(session), session)
    {
      if session.version.None? {
        if !session.live {
          return Some(true);
        }
        var ok := Take(Some(Detect));
        if !ok {
          return None;
        }
        session := session.(version := Some(env.device));
      }
      r := Some(VersionAtLeast(session.version.value, minimum));
    }

    /** `delete_image`: the request goes out only if the version check passes and the session is live after it. */
    method DeleteImage(name: string) returns (r: Option<bool>)
      modifies this
      ensures var goes := DeleteGoes(env, old(session), |old(past)|);
              && log == old(log) + (if goes then [Delete(name)] else [])
              && past == old(past) + DeleteAwaits(env, old(session), |old(past)|, name)
              && (r == Some(true) ==> goes)
      ensures r == Some(false) <==>
              var c := CheckVersion(env, old(session), |old(past)|, DELETE_MINIMUM); !c.raised && !c.passes
      ensures Calm() && old(session).live && Knows(env, old(session)) ==>
                session.live && r == Some(VersionAtLeast(env.device, DELETE_MINIMUM))
      ensures Kept(env, old(session), session)
    {
      AfterLost(env, session);
      r := AtLeast(DELETE_MINIMUM);
      if r == Some(true) {
        var ok := Request(Delete(name));
        r := if ok then Some(true) else None;
      }
    }

    /**
     The delete that cleans up after a failed upload runs as a task of its own, one turn of the event loop later;
     its own failure is ignored.
     */
    method Cleanup(name: string)
      modifies this
      ensures var t := env.turn(|old(past)|, None);
              var s := After(env, old(session), t.changes);
              && log == old(log) + (if DeleteGoes(env, s, |old(past)| + 1) then [Delete(name)] else [])
              && past == old(past) + ([Awaited(None, old(session))] + DeleteAwaits(env, s, |old(past)| + 1, name))
    {
      var _ := Await();
      Assoc(old(past), [Awaited(None, old(session))], DeleteAwaits(env, session, |past|, name));
      var _ := DeleteImage(name);
    }
  }

  function Report(callback: bool, count: nat): seq<Action> {
    if callback then [Progress(count)] else []
  }
}
