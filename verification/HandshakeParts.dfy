/** The key agreement and the tickets of this package are what a run of the handshake asks for. */
module HandshakeParts {
  import opened Bytes
  import opened Encoding
  import K = KeyAgreement
  import T = Ticket
  import H = Handshake
  import L = HandshakeLaws
  import R = HandshakeRuns
  import E = HandshakeTerms

  // ----- Diffie-Hellman

  /** The client's answer to a server's key exchange, with secret `c`. */
  function DheRespond(c: nat): Option<Data> -> Option<(Data, Data)> {
    skx =>
      if skx == None then None
      else
        match K.ReadServerMessage(skx.value)
        case None => None
        case Some((dhp, ys)) => if dhp.p == 0 then None else K.ClientMessage(dhp, ys, c)
  }

  /** Whether the client can read a server's key exchange. */
  function DheTakes(): Data -> bool {
    d => K.ReadServerMessage(d).Some?
  }

  /** The server's reading of that answer, with parameters `dhp` and secret `x`. */
  function DheAccept(dhp: K.Params, x: nat): Data -> Option<Data>
    requires dhp.p >= 1
  {
    ckx => K.ReadClientMessage(dhp, x, ckx)
  }

  /** A run in which both sides use this agreement, with whatever parameters and secrets. */
  ghost predicate DheRun(w: H.World, dhp: K.Params, x: nat, c: nat) {
    && K.Fits(dhp)
    && w.skx == Some(K.ServerMessage(dhp, x)) && w.takesKey == DheTakes()
    && w.respond == DheRespond(c) && w.accept == DheAccept(dhp, x)
  }

  /**
   The client goes on exactly with a long enough, valid group and a public key of the server within
   bounds, the server exactly with a public key of the client within bounds; then their secrets are the same.
   */
  lemma DheAgrees(w: H.World, dhp: K.Params, x: nat, c: nat)
    requires DheRun(w, dhp, x, c)
    ensures L.Responds(w) ==> R.KeyTaken(w)
    ensures L.Responds(w) <==>
            && |K.ToBytes(dhp.p)| >= 128 && dhp.p % 2 == 1 && 1 < dhp.g < dhp.p - 1
            && 1 < K.ModPow(dhp.g, x, dhp.p) < dhp.p - 1
    ensures L.Responds(w) ==>
              w.accept(L.Response(w).1)
              == if 1 < K.ModPow(dhp.g, c, dhp.p) < dhp.p - 1 then Some(L.Response(w).0) else None
  {
    hide K.ServerMessage, K.ReadServerMessage, K.ReadClientMessage, K.ModPow, K.ToBytes, K.Fits;
    K.ParamsArrive(dhp, x);
    K.SecretsAgree(dhp, x, c);
  }

  // ----- Tickets

  function ToTicket(s: H.Session): Option<T.Session> {
    if s.vers >= 0x1_0000 || s.suite >= 0x1_0000 then None
    else Some(T.Session(s.vers, s.suite, s.master, s.certificates))
  }

  function FromTicket(s: T.Session): H.Session {
    H.Session(s.vers, s.cipherSuite, s.masterSecret, s.certificates)
  }

  /** decryptTicket under a list of keys. */
  function Opens(c: T.Crypto, keys: seq<T.Key>): Data -> Option<(H.Session, bool)> {
    d =>
      match T.Opened(c, false, keys, d)
      case None => None
      case Some((s, older)) => Some((FromTicket(s), older))
  }

  /**
   A run in which a session the client has kept, if any, is the one its ticket was made from under `key`.
   The server's list may have lost that key since, or have moved it back.
   */
  ghost predicate TicketRun(w: H.World, c: T.Crypto, key: T.Key, iv: Data, keys: seq<T.Key>) {
    && w.opens == Opens(c, keys)
    && (w.session.Some? ==>
         && T.Sound(c) && |key.keyName| == T.KEY_NAME_LEN && |iv| == T.BLOCK_SIZE
         && var i := T.Find(keys, key.keyName);
         && (i.Some? ==> i.value < |keys| && keys[i.value] == key)
         && ToTicket(w.session.value.1).Some? && T.Representable(ToTicket(w.session.value.1).value)
         && w.session.value.0 == T.Sealed(c, key, iv, ToTicket(w.session.value.1).value))
  }

  /** The server opens the ticket to the session that the client has kept, as long as it still has the key. */
  lemma TicketsAgree(w: H.World, c: T.Crypto, key: T.Key, iv: Data, keys: seq<T.Key>)
    requires TicketRun(w, c, key, iv, keys)
    ensures w.opens([]) == None
    ensures w.session.Some? ==>
              w.opens(w.session.value.0)
              == if T.Find(keys, key.keyName) == None then None
                 else Some((w.session.value.1, T.Find(keys, key.keyName).value > 0))
  {
    hide T.Sealed, T.Representable, T.Sound, T.Find;
    NoTicket(c, keys);
    T.FindFirst(keys, key.keyName);
    if w.session.Some? {
      var s := ToTicket(w.session.value.1).value;
      if T.Find(keys, key.keyName).Some? {
        T.TicketOpens(c, key, iv, s, keys, T.Find(keys, key.keyName).value);
      } else {
        TicketLost(c, key, iv, s, keys);
      }
    }
  }

  /** Without a key of its name a ticket does not open. */
  lemma TicketLost(c: T.Crypto, key: T.Key, iv: Data, s: T.Session, keys: seq<T.Key>)
    requires T.Sound(c) && |key.keyName| == T.KEY_NAME_LEN && T.Find(keys, key.keyName) == None
    ensures T.Opened(c, false, keys, T.Sealed(c, key, iv, s)) == None
  {
    var d := T.Sealed(c, key, iv, s);
    if |d| >= T.KEY_NAME_LEN {
      assert d[..T.KEY_NAME_LEN] == key.keyName;
    }
  }

  lemma NoTicket(c: T.Crypto, keys: seq<T.Key>)
    ensures Opens(c, keys)([]) == None
  {
  }

  // ----- Both in one run

  lemma PartsAreHonest(w: H.World, dhp: K.Params, x: nat, c: nat, crypto: T.Crypto, key: T.Key, iv: Data,
      keys: seq<T.Key>)
    requires H.Expands(w) && w.sessionId != [] && DheRun(w, dhp, x, c) && TicketRun(w, crypto, key, iv, keys)
    ensures L.Honest(w)
  {
    hide DheRun, TicketRun, H.Expands;
    DheAgrees(w, dhp, x, c);
    TicketsAgree(w, crypto, key, iv, keys);
  }

  /**
   With this Diffie-Hellman agreement and these tickets, a joint run that can go no further has completed,
   with one transcript, one secret and matching keys, exactly where both sides accept each other.
   */
  lemma PartsComplete(w: H.World, dhp: K.Params, x: nat, c: nat, crypto: T.Crypto, key: T.Key, iv: Data,
      keys: seq<T.Key>, run: seq<H.State>)
    requires H.Expands(w) && w.sessionId != [] && DheRun(w, dhp, x, c) && TicketRun(w, crypto, key, iv, keys)
    requires H.Reachable(w, run) && !R.CanMove(w, run[|run| - 1])
    ensures R.Agree(w, run[|run| - 1]) <==> E.Accepts(w)
  {
    hide DheRun, TicketRun, E.Accepts, H.Reachable, R.CanMove, R.Agree, H.Expands;
    PartsAreHonest(w, dhp, x, c, crypto, key, iv, keys);
    E.CompletesExactly(w, run);
  }

  /**
   A client without a session cache and a server without certificates, as on the way to a console server:
   the handshake completes exactly if the server finds a suite among all those the client is configured with,
   the group is valid and both public keys are within bounds.
   */
  lemma AnonymousCompletes(w: H.World, dhp: K.Params, x: nat, c: nat, crypto: T.Crypto, key: T.Key, iv: Data,
      keys: seq<T.Key>, run: seq<H.State>)
    requires H.Expands(w) && w.sessionId != [] && DheRun(w, dhp, x, c) && TicketRun(w, crypto, key, iv, keys)
    requires w.session == None && w.staple == [] && !w.requestsCert
    requires w.choose(w.suites).Some? ==> w.noCerts(w.choose(w.suites).value)
    requires H.Reachable(w, run) && !R.CanMove(w, run[|run| - 1])
    ensures R.Agree(w, run[|run| - 1]) <==>
            && w.choose(w.suites).Some? && w.choose(w.suites).value in w.suites
            && |K.ToBytes(dhp.p)| >= 128 && dhp.p % 2 == 1 && 1 < dhp.g < dhp.p - 1
            && 1 < K.ModPow(dhp.g, x, dhp.p) < dhp.p - 1 && 1 < K.ModPow(dhp.g, c, dhp.p) < dhp.p - 1
  {
    hide DheRun, TicketRun, H.Reachable, R.CanMove, R.Agree, H.Expands, K.ToBytes, K.ModPow, E.ToKeyExchange;
    DheAgrees(w, dhp, x, c);
    TicketsAgree(w, crypto, key, iv, keys);
    PartsComplete(w, dhp, x, c, crypto, key, iv, keys, run);
  }
}
