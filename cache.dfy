/** The Redis price cache of app/cache/redis_cache.py.

    The Redis server is seen as a map from keys to entries (`data`) and as an oracle `net` that
    gives the outcome of the n-th round trip this client makes (a PING, a GET or a SETEX).
    `client` says whether `redis_client` is set, `trips` counts the round trips made so far and
    `sleeps` logs the back-off pauses of the connection loop, in seconds. */
module Cache {
  import opened Wrappers
  import opened Text

  /** Every price key starts with this. */
  const KeyPrefix: string := "product:price:"

  /** SETEX expiry, in seconds. */
  const PriceTtl: nat := 3600

  /** The default `max_retries` of _connect. */
  const ConnectRetries: nat := 3

  /** The key of a title's price: the fixed prefix followed by the title, used as it is. */
  function Key(title: string): string {
    KeyPrefix + title
  }

  /** The title can be read back from its key, so distinct titles never share an entry. */
  lemma KeyInjective(a: string, b: string)
    requires Key(a) == Key(b)
    ensures a == b
  {
    assert Key(a)[|KeyPrefix|..] == a;
    assert Key(b)[|KeyPrefix|..] == b;
  }

  // ---------------------------------------------------------------------------------------
  // The server's contents

  /** A stored string value: the text of a float, the empty string, or text float() rejects. */
  datatype Stored = PriceText(price: real) | EmptyText | Unparsable

  /** A stored value with the expiry it was written with. */
  datatype Entry = Entry(value: Stored, ttl: nat)

  /** The price a GET of the title's key reads: the stored number, or none when the key is absent,
      its value is empty or its text is not a number. */
  function Lookup(data: map<string, Entry>, title: string): (price: Option<real>)
    ensures price.Some? <==> Key(title) in data && data[Key(title)].value.PriceText?
    ensures price.Some? ==> price.value == data[Key(title)].value.price
  {
    var key := Key(title);
    if key in data && data[key].value.PriceText? then Some(data[key].value.price) else None
  }

  /** A SETEX of the title's key: the price's text, with the one-hour expiry. */
  function Store(data: map<string, Entry>, title: string, price: real): map<string, Entry> {
    data[Key(title) := Entry(PriceText(price), PriceTtl)]
  }

  /** A get after a set of the same title returns the price just set. */
  lemma GetAfterSet(data: map<string, Entry>, title: string, price: real)
    ensures Lookup(Store(data, title, price), title) == Some(price)
  {
  }

  /** A set leaves every other title's price alone. */
  lemma SetLeavesOthers(data: map<string, Entry>, title: string, other: string, price: real)
    requires other != title
    ensures Lookup(Store(data, title, price), other) == Lookup(data, other)
  {
    if Key(other) == Key(title) {
      KeyInjective(other, title);
    }
  }

  /** A set writes its entry with the one-hour expiry and adds no other key. */
  lemma SetWritesTtl(data: map<string, Entry>, title: string, price: real)
    ensures Store(data, title, price)[Key(title)].ttl == PriceTtl
    ensures Store(data, title, price).Keys == data.Keys + {Key(title)}
  {
  }

  // ---------------------------------------------------------------------------------------
  // _connect

  /** The outcome of one round trip to the server. */
  datatype Trip = Ok | ConnectionError | AuthenticationError | UnexpectedError

  /** The exceptions _connect lets through. */
  datatype ConnectError = AuthFailed | Unexpected

  /** How _connect ends: a ping answered, every attempt refused, or an exception raised. */
  datatype ConnectStatus = Connected | GaveUp | Raised(error: ConnectError)

  /** How _connect ends, the pings it sent and the pauses it made. */
  datatype ConnectRun = ConnectRun(status: ConnectStatus, attempts: nat, slept: seq<nat>)

  /** The loop of _connect from `attempt` on, its first ping being round trip `start`. Only a
      ConnectionError moves on to the next attempt, after a pause of 2^attempt seconds unless it
      was the last one. */
  function ConnectSpec(net: nat -> Trip, start: nat, attempt: nat, maxRetries: nat): (run: ConnectRun)
    decreases maxRetries - attempt
  {
    if attempt >= maxRetries then ConnectRun(GaveUp, 0, [])
    else if net(start) != ConnectionError then ConnectRun(Finished(net(start)), 1, [])
    else
      var rest := ConnectSpec(net, start + 1, attempt + 1, maxRetries);
      ConnectRun(rest.status, 1 + rest.attempts, Pause(attempt, maxRetries) + rest.slept)
  }

  /** How an attempt whose ping was not refused ends _connect. */
  function Finished(t: Trip): (status: ConnectStatus)
    requires t != ConnectionError
    ensures status == Connected <==> t == Ok
    ensures status.Raised? <==> t == AuthenticationError || t == UnexpectedError
  {
    match t
    case Ok => Connected
    case AuthenticationError => Raised(AuthFailed)
    case UnexpectedError => Raised(Unexpected)
  }

  /** The pause after a refused attempt: 2^attempt seconds, or none after the last attempt. */
  function Pause(attempt: nat, maxRetries: nat): (pause: seq<nat>)
    ensures pause == [] || pause == [Pow2(attempt)]
    ensures pause != [] <==> attempt < maxRetries - 1
  {
    if attempt < maxRetries - 1 then [Pow2(attempt)] else []
  }

  /** At most the remaining number of attempts are made, at least one when any remains; every
      attempt but the last was refused, and the last one's outcome is the status; the pauses fall
      between attempts only, doubling from 2^attempt. */
  lemma {:induction false} ConnectSpecShape(net: nat -> Trip, start: nat, attempt: nat, maxRetries: nat)
    requires attempt <= maxRetries
    ensures var run := ConnectSpec(net, start, attempt, maxRetries);
      && run.attempts <= maxRetries - attempt
      && (attempt < maxRetries ==> run.attempts >= 1)
      && (forall n :: start <= n < start + run.attempts - 1 ==> net(n) == ConnectionError)
      && (run.status == Connected ==> net(start + run.attempts - 1) == Ok)
      && (run.status == Raised(AuthFailed) ==> net(start + run.attempts - 1) == AuthenticationError)
      && (run.status == Raised(Unexpected) ==> net(start + run.attempts - 1) == UnexpectedError)
      && (run.status == GaveUp ==> run.attempts == maxRetries - attempt)
      && |run.slept| == (if run.attempts == 0 then 0 else run.attempts - 1)
      && (forall i :: 0 <= i < |run.slept| ==> run.slept[i] == Pow2(attempt + i))
    decreases maxRetries - attempt
  {
    if attempt < maxRetries && net(start) == ConnectionError {
      ConnectSpecShape(net, start + 1, attempt + 1, maxRetries);
      var rest := ConnectSpec(net, start + 1, attempt + 1, maxRetries);
      var run := ConnectSpec(net, start, attempt, maxRetries);
      if attempt < maxRetries - 1 {
        assert rest.attempts >= 1;
        forall i | 0 <= i < |run.slept| ensures run.slept[i] == Pow2(attempt + i) {
          if i > 0 {
            assert run.slept[i] == rest.slept[i - 1];
          }
        }
      } else {
        assert rest.attempts == 0;
      }
    }
  }

  /** The doubling back-off of an unreachable server: 2^attempt, 2^(attempt+1), ... for `count` pauses. */
  function Backoff(attempt: nat, count: nat): (pauses: seq<nat>)
    ensures |pauses| == count
  {
    seq<nat>(count, i requires 0 <= i < count => Pow2(attempt + i))
  }

  /** A server that refuses every connection is tried max_retries times, with pauses of
      1, 2, 4, ... seconds between the tries, and _connect then returns without raising. */
  lemma {:induction false} ConnectAlwaysRefused(net: nat -> Trip, start: nat, attempt: nat, maxRetries: nat)
    requires attempt < maxRetries
    requires forall n :: start <= n < start + (maxRetries - attempt) ==> net(n) == ConnectionError
    ensures ConnectSpec(net, start, attempt, maxRetries)
         == ConnectRun(GaveUp, maxRetries - attempt, Backoff(attempt, maxRetries - attempt - 1))
    decreases maxRetries - attempt
  {
    if attempt + 1 < maxRetries {
      ConnectAlwaysRefused(net, start + 1, attempt + 1, maxRetries);
      assert [Pow2(attempt)] + Backoff(attempt + 1, maxRetries - attempt - 2)
          == Backoff(attempt, maxRetries - attempt - 1);
    } else {
      assert Backoff(attempt, 0) == [];
    }
  }

  /** A server that refuses `refused` pings and then answers, or raises, within the retries ends
      _connect at that ping, after a pause of 2^i seconds for each refused attempt i. */
  lemma {:induction false} ConnectEndsAt(net: nat -> Trip, start: nat, attempt: nat, refused: nat, maxRetries: nat)
    requires attempt + refused < maxRetries
    requires forall n :: start <= n < start + refused ==> net(n) == ConnectionError
    requires net(start + refused) != ConnectionError
    ensures ConnectSpec(net, start, attempt, maxRetries)
         == ConnectRun(Finished(net(start + refused)), refused + 1, Backoff(attempt, refused))
    decreases refused
  {
    if refused > 0 {
      assert net(start) == ConnectionError;
      ConnectEndsAt(net, start + 1, attempt + 1, refused - 1, maxRetries);
      assert [Pow2(attempt)] + Backoff(attempt + 1, refused - 1) == Backoff(attempt, refused);
    } else {
      assert Backoff(attempt, 0) == [];
    }
  }

  /** With the default three retries a refusing server costs three pings and pauses of 1 and 2 seconds. */
  lemma DefaultConnectAlwaysRefused(net: nat -> Trip, start: nat)
    requires forall n :: start <= n ==> net(n) == ConnectionError
    ensures ConnectSpec(net, start, 0, ConnectRetries) == ConnectRun(GaveUp, 3, [1, 2])
  {
    ConnectAlwaysRefused(net, start, 0, ConnectRetries);
    assert Backoff(0, 2) == [Pow2(0), Pow2(1)];
  }

  /** The first answered ping ends the loop. */
  lemma ConnectFirstPong(net: nat -> Trip, start: nat, attempt: nat, maxRetries: nat)
    requires attempt < maxRetries && net(start) == Ok
    ensures ConnectSpec(net, start, attempt, maxRetries) == ConnectRun(Connected, 1, [])
  {
  }

  /** A server that answers every ping is connected to at once, from any attempt on. */
  lemma ConnectReachable(net: nat -> Trip, start: nat, attempt: nat, maxRetries: nat)
    requires forall n :: start <= n ==> net(n) == Ok
    requires attempt < maxRetries
    ensures ConnectSpec(net, start, attempt, maxRetries).status == Connected
  {
    assert net(start) == Ok;
  }

  /** An authentication failure propagates at the attempt it happens, with no pause and no retry. */
  lemma ConnectAuthenticationRaises(net: nat -> Trip, start: nat, attempt: nat, maxRetries: nat)
    requires attempt < maxRetries && net(start) == AuthenticationError
    ensures ConnectSpec(net, start, attempt, maxRetries) == ConnectRun(Raised(AuthFailed), 1, [])
  {
  }

  // ---------------------------------------------------------------------------------------
  // ensure_connection

  /** The client's state after a step: whether `redis_client` is set, the round trips made so far,
      and the pauses the step made. */
  datatype Session = Session(client: bool, trips: nat, slept: seq<nat>)

  /** ensure_connection: without a client, _connect runs and a raised error clears the client; with
      one, a ping is sent, and a ping that raises clears the client without reconnecting. */
  function EnsureSpec(net: nat -> Trip, trips: nat, client: bool): (s: Session)
    ensures s.trips > trips
  {
    if !client then
      var run := ConnectSpec(net, trips, 0, ConnectRetries);
      Session(!run.status.Raised?, trips + run.attempts, run.slept)
    else if net(trips) == Ok then Session(true, trips + 1, [])
    else Session(false, trips + 1, [])
  }

  /** A server that answers every round trip leaves the client set, without pauses. */
  lemma EnsureReachable(net: nat -> Trip, trips: nat, client: bool)
    requires forall n :: trips <= n ==> net(n) == Ok
    ensures EnsureSpec(net, trips, client).client
    ensures EnsureSpec(net, trips, client).slept == []
  {
    assert net(trips) == Ok;
  }

  /** A server that refuses every round trip: with a client the ping clears it; without one the
      full back-off runs and the client is set again, to be refused at the next command. */
  lemma EnsureUnreachable(net: nat -> Trip, trips: nat, client: bool)
    requires forall n :: trips <= n ==> net(n) == ConnectionError
    ensures client ==> EnsureSpec(net, trips, client) == Session(false, trips + 1, [])
    ensures !client ==> EnsureSpec(net, trips, client) == Session(true, trips + ConnectRetries, [1, 2])
  {
    if !client {
      DefaultConnectAlwaysRefused(net, trips);
    } else {
      assert net(trips) == ConnectionError;
    }
  }

  /** Any exception ensure_connection meets clears the client: without a client, the client is
      set afterwards exactly when _connect did not raise; with one, it stays set exactly when the
      ping is answered, whatever else the ping raises. */
  lemma EnsureClearsOnRaise(net: nat -> Trip, trips: nat, client: bool)
    ensures !client ==>
      (EnsureSpec(net, trips, client).client <==> !ConnectSpec(net, trips, 0, ConnectRetries).status.Raised?)
    ensures client ==> (EnsureSpec(net, trips, client).client <==> net(trips) == Ok)
    ensures client && net(trips) != Ok ==> EnsureSpec(net, trips, client) == Session(false, trips + 1, [])
  {
  }

  /** An authentication failure while reconnecting leaves no client, after one ping and no pause. */
  lemma EnsureAuthenticationFails(net: nat -> Trip, trips: nat)
    requires net(trips) == AuthenticationError
    ensures EnsureSpec(net, trips, false) == Session(false, trips + 1, [])
  {
    ConnectAuthenticationRaises(net, trips, 0, ConnectRetries);
  }

  // ---------------------------------------------------------------------------------------
  // get_product_price and set_product_price as steps on the client state

  /** What the cache object carries: whether `redis_client` is set, the round trips made so far,
      the server's contents and the pauses made so far. */
  datatype CacheState = CacheState(client: bool, trips: nat, data: map<string, Entry>, sleeps: seq<nat>)

  /** A get's price and the state it leaves. */
  datatype Got = Got(price: Option<real>, state: CacheState)

  /** get_product_price: ensure_connection, then None without a client, else one GET whose
      failure also reads as None. */
  function GetStep(net: nat -> Trip, st: CacheState, title: string): (g: Got)
    ensures g.state.data == st.data && g.state.trips > st.trips
    ensures g.price.Some? ==> g.price == Lookup(st.data, title)
  {
    var s := EnsureSpec(net, st.trips, st.client);
    var answered := s.client && net(s.trips) == Ok;
    Got(if answered then Lookup(st.data, title) else None,
        CacheState(s.client, if s.client then s.trips + 1 else s.trips, st.data, st.sleeps + s.slept))
  }

  /** set_product_price: ensure_connection, then nothing without a client, else one SETEX that
      writes the entry when it is answered and is ignored when it fails. */
  function SetStep(net: nat -> Trip, st: CacheState, title: string, price: real): (after: CacheState)
    ensures after.trips > st.trips
    ensures after.data == st.data || after.data == Store(st.data, title, price)
  {
    var s := EnsureSpec(net, st.trips, st.client);
    var answered := s.client && net(s.trips) == Ok;
    CacheState(s.client, if s.client then s.trips + 1 else s.trips,
               if answered then Store(st.data, title, price) else st.data, st.sleeps + s.slept)
  }

  /** Every round trip from `t` on is answered. */
  ghost predicate AnsweredFrom(net: nat -> Trip, t: nat) {
    forall n :: t <= n ==> net(n) == Ok
  }

  /** Every round trip from `t` on is refused. */
  ghost predicate RefusedFrom(net: nat -> Trip, t: nat) {
    forall n :: t <= n ==> net(n) == ConnectionError
  }

  /** A reachable server returns what it holds. */
  lemma GetStepAnswered(net: nat -> Trip, st: CacheState, title: string)
    requires AnsweredFrom(net, st.trips)
    ensures GetStep(net, st, title).price == Lookup(st.data, title)
    ensures GetStep(net, st, title).state.client
  {
    EnsureReachable(net, st.trips, st.client);
    var s := EnsureSpec(net, st.trips, st.client);
    assert net(s.trips) == Ok;
  }

  /** An unreachable server reads as an absent price, and nothing raises. */
  lemma GetStepRefused(net: nat -> Trip, st: CacheState, title: string)
    requires RefusedFrom(net, st.trips)
    ensures GetStep(net, st, title).price == None
  {
    EnsureUnreachable(net, st.trips, st.client);
    var s := EnsureSpec(net, st.trips, st.client);
    assert net(s.trips) == ConnectionError;
  }

  /** A reachable server takes the write. */
  lemma SetStepAnswered(net: nat -> Trip, st: CacheState, title: string, price: real)
    requires AnsweredFrom(net, st.trips)
    ensures SetStep(net, st, title, price).data == Store(st.data, title, price)
    ensures SetStep(net, st, title, price).client
  {
    EnsureReachable(net, st.trips, st.client);
    var s := EnsureSpec(net, st.trips, st.client);
    assert net(s.trips) == Ok;
  }

  /** A write to an unreachable server is silently dropped. */
  lemma SetStepRefused(net: nat -> Trip, st: CacheState, title: string, price: real)
    requires RefusedFrom(net, st.trips)
    ensures SetStep(net, st, title, price).data == st.data
  {
    EnsureUnreachable(net, st.trips, st.client);
    var s := EnsureSpec(net, st.trips, st.client);
    assert net(s.trips) == ConnectionError;
  }

  // ---------------------------------------------------------------------------------------
  // The cache object

  class RedisCache {
    /** The server's answers, by round trip. */
    const net: nat -> Trip
    /** Whether a client is set. */
    var client: bool
    /** Round trips made so far. */
    var trips: nat
    /** The server's keys and entries. */
    var data: map<string, Entry>
    /** The pauses time.sleep made, in order. */
    var sleeps: seq<nat>
    /** How the connection attempt of __init__ ended; Raised means the constructor raised. */
    var startup: ConnectStatus

    /** Every round trip from now on is answered. */
    ghost predicate Reachable()
      reads this
    {
      AnsweredFrom(net, trips)
    }

    /** Every round trip from now on is refused. */
    ghost predicate Unreachable()
      reads this
    {
      RefusedFrom(net, trips)
    }

    /** The object's fields as a value. */
    function State(): CacheState
      reads this
    {
      CacheState(client, trips, data, sleeps)
    }

    /** __init__: no client yet, then _connect() with the default three retries. */
    constructor (net: nat -> Trip, initial: map<string, Entry>)
      ensures this.net == net && data == initial && client
      ensures var run := ConnectSpec(net, 0, 0, ConnectRetries);
        startup == run.status && trips == run.attempts && sleeps == run.slept
    {
      this.net := net;
      data := initial;
      client := false;
      trips := 0;
      sleeps := [];
      startup := GaveUp;
      new;
      var status := Connect(ConnectRetries);
      startup := status;
    }

    /** One PING, GET or SETEX round trip: the oracle's next answer. */
    method RoundTrip() returns (t: Trip)
      modifies this
      ensures t == net(old(trips)) && trips == old(trips) + 1
      ensures client == old(client) && data == old(data) && sleeps == old(sleeps) && startup == old(startup)
    {
      t := net(trips);
      trips := trips + 1;
    }

    /** One pass of the loop of _connect: a new client is made and pinged, and a refused ping is
        followed by its pause. */
    method Attempt(attempt: nat, maxRetries: nat) returns (trip: Trip)
      modifies this
      ensures client && trip == net(old(trips)) && trips == old(trips) + 1
      ensures sleeps == old(sleeps) + (if trip == ConnectionError then Pause(attempt, maxRetries) else [])
      ensures data == old(data) && startup == old(startup)
    {
      client := true;
      trip := RoundTrip();
      if trip == ConnectionError && attempt < maxRetries - 1 {
        sleeps := sleeps + [Pow2(attempt)];
      }
    }

    /** _connect(max_retries) */
    method Connect(maxRetries: nat) returns (status: ConnectStatus)
      modifies this
      ensures var run := ConnectSpec(net, old(trips), 0, maxRetries);
        status == run.status && trips == old(trips) + run.attempts && sleeps == old(sleeps) + run.slept
      ensures client == (old(client) || maxRetries > 0)
      ensures data == old(data) && startup == old(startup)
    {
      var attempt := 0;
      ghost var start := trips;
      ghost var before := sleeps;
      while attempt < maxRetries
        invariant attempt <= maxRetries && trips == start + attempt
        invariant client == (old(client) || attempt > 0)
        invariant data == old(data) && startup == old(startup)
        invariant forall n :: start <= n < start + attempt ==> net(n) == ConnectionError
        invariant attempt < maxRetries || attempt == 0 ==> sleeps == before + Backoff(0, attempt)
        invariant attempt == maxRetries > 0 ==> sleeps == before + Backoff(0, attempt - 1)
      {
        var trip := Attempt(attempt, maxRetries);
        if trip != ConnectionError {
          ConnectEndsAt(net, start, 0, attempt, maxRetries);
          return Finished(trip);
        }
        if attempt < maxRetries - 1 {
          assert Backoff(0, attempt) + [Pow2(attempt)] == Backoff(0, attempt + 1);
        }
        attempt := attempt + 1;
      }
      if maxRetries > 0 {
        ConnectAlwaysRefused(net, start, 0, maxRetries);
      } else {
        assert Backoff(0, 0) == [];
      }
      return GaveUp;
    }

    /** ensure_connection() */
    method EnsureConnection()
      modifies this
      ensures var s := EnsureSpec(net, old(trips), old(client));
        client == s.client && trips == s.trips && sleeps == old(sleeps) + s.slept
      ensures data == old(data) && startup == old(startup)
    {
      if !client {
        var status := Connect(ConnectRetries);
        if status.Raised? {
          client := false;
        }
      } else {
        var pong := RoundTrip();
        if pong != Ok {
          client := false;
        }
      }
    }

    /** get_product_price(product_title) */
    method GetProductPrice(title: string) returns (price: Option<real>)
      modifies this
      ensures Got(price, State()) == GetStep(net, old(State()), title)
      ensures startup == old(startup)
      ensures old(Reachable()) ==> price == Lookup(data, title) && client && Reachable()
      ensures old(Unreachable()) ==> price == None && Unreachable()
    {
      ghost var before := State();
      if Reachable() {
        GetStepAnswered(net, before, title);
      }
      if Unreachable() {
        GetStepRefused(net, before, title);
      }
      EnsureConnection();
      if !client {
        return None;
      }
      var reply := RoundTrip();
      if reply != Ok {
        return None;
      }
      price := Lookup(data, title);
    }

    /** set_product_price(product_title, price) */
    method SetProductPrice(title: string, price: real)
      modifies this
      ensures State() == SetStep(net, old(State()), title, price)
      ensures startup == old(startup)
      ensures old(Reachable()) ==> data == Store(old(data), title, price) && client && Reachable()
      ensures old(Unreachable()) ==> data == old(data) && Unreachable()
    {
      ghost var before := State();
      if Reachable() {
        SetStepAnswered(net, before, title, price);
      }
      if Unreachable() {
        SetStepRefused(net, before, title, price);
      }
      EnsureConnection();
      if !client {
        return;
      }
      var reply := RoundTrip();
      if reply != Ok {
        return;
      }
      data := Store(data, title, price);
    }
  }
}
