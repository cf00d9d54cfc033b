/** users.json and state.json: what outlives a command. */
module Stores {
  import opened Wrappers
  import opened Registry
  import opened Users

  datatype State = State(
    enabled: seq<string>,
    revokePending: seq<string>,
    lastApplied: seq<string>,
    convergePending: bool)

  function DefaultEnabled(protocols: seq<Protocol>): seq<string>
  {
    if protocols == [] then []
    else (if protocols[0].defaultEnabled then [protocols[0].name] else []) + DefaultEnabled(protocols[1..])
  }

  /** A missing state.json is the default set, nothing queued and nothing pending. */
  function DefaultState(): State
  {
    State(DefaultEnabled(PROTOCOLS), [], [], false)
  }

  class Store {
    var users: seq<User>
    var file: Option<State>
    /** Both files can be read and written: the assumption behind "every step succeeds". */
    const obliging: bool

    constructor (obliging: bool)
      ensures users == [] && file == None && this.obliging == obliging
    {
      users, file := [], None;
      this.obliging := obliging;
    }

    function Current(): State
      reads this
    {
      match file case None => DefaultState() case Some(s) => s
    }

    /** None when the file cannot be read; nothing is changed by that. */
    method LoadState() returns (r: Option<State>)
      ensures r.Some? ==> r.value == Current()
      ensures obliging ==> r.Some?
    {
      var damaged: bool := *;
      return if damaged && !obliging then None else Some(Current());
    }

    /** Written to a temporary and moved into place: all of it, or none of it. */
    method SaveState(s: State) returns (ok: bool)
      modifies this`file
      ensures file == if ok then Some(s) else old(file)
      ensures obliging ==> ok
    {
      ok := *;
      ok := ok || obliging;
      if ok {
        file := Some(s);
      }
    }

    method LoadUsers() returns (r: Option<seq<User>>)
      ensures r.Some? ==> r.value == users
      ensures obliging ==> r.Some?
    {
      var damaged: bool := *;
      return if damaged && !obliging then None else Some(users);
    }

    method SaveUsers(us: seq<User>) returns (ok: bool)
      modifies this`users
      ensures users == if ok then us else old(users)
      ensures obliging ==> ok
    {
      ok := *;
      ok := ok || obliging;
      if ok {
        users := us;
      }
    }
  }
}
