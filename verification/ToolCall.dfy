/**
 The tool-call choke point: one write sent to the movie service over a transport that may lose the
 reply of a write that took effect, retried with doubling delays, and then classified for the
 approval gate.
 */
module ToolCall {
  import opened Common
  import opened MovieStore

  /** A status made up by the transport or an intermediary.  404 and 409 only ever come from the
      service itself, so they are answers rather than faults. */
  type FaultCode = c: nat | c != 404 && c != 409 witness 500

  datatype Fault =
    | Transport                                // connect, timeout or socket failure
    | Fatal                                    // an exception that is not a transport failure
    | Http(code: FaultCode, detail: string)    // a tool error carrying an upstream status
    | Opaque                                   // a tool error carrying no status

  /** What happens to one call: it is answered by the service, or it fails, having taken effect or not. */
  datatype Attempt = Delivered | Faulted(effect: bool, fault: Fault)

  /** Which calls fail, and how: one entry per attempt. */
  type Script = nat -> Attempt

  predicate Effective(a: Attempt) {
    a.Delivered? || a.effect
  }

  datatype Seen =
    | Success(id: Id)
    | Refused(status: Option<nat>, detail: string)
    | Broken
    | Bug

  function See(r: Reply): Seen {
    match r
    case Done(id) => Success(id)
    case Status(code) => Refused(Some(code), "")
  }

  function SeeFault(f: Fault): Seen {
    match f
    case Transport => Broken
    case Fatal => Bug
    case Http(code, detail) => Refused(Some(code), detail)
    case Opaque => Refused(None, "")
  }

  function Once(svc: Service, s: Store, q: Request, a: Attempt): (Store, Seen) {
    match a
    case Delivered => var (t, r) := Serve(svc, s, q); (t, See(r))
    case Faulted(effect, fault) => (if effect then Serve(svc, s, q).0 else s, SeeFault(fault))
  }

  predicate Transient(seen: Seen) {
    seen.Broken? || (seen.Refused? && seen.status.Some? && seen.status.value >= 500)
  }

  datatype Run = Run(store: Store, seen: Seen, retries: nat)

  /** The retry loop from attempt `k` on. */
  function Invoke(svc: Service, s: Store, q: Request, script: Script, k: nat, max: nat): Run
    requires k <= max
    decreases max - k
  {
    var (t, seen) := Once(svc, s, q, script(k));
    if Transient(seen) && k < max then Invoke(svc, t, q, script, k + 1, max) else Run(t, seen, k)
  }

  /** The store after each attempt of the loop, in order. */
  function InvokeTrace(svc: Service, s: Store, q: Request, script: Script, k: nat, max: nat): seq<Store>
    requires k <= max
    decreases max - k
  {
    var (t, seen) := Once(svc, s, q, script(k));
    [t] + if Transient(seen) && k < max then InvokeTrace(svc, t, q, script, k + 1, max) else []
  }

  /** The store after `n` consecutive attempts, whatever they report. */
  function After(svc: Service, s: Store, q: Request, script: Script, n: nat): Store {
    if n == 0 then s else Once(svc, After(svc, s, q, script, n - 1), q, script(n - 1)).0
  }

  /** What attempt `j` reports when it is reached. */
  function SeenAt(svc: Service, s: Store, q: Request, script: Script, j: nat): Seen {
    Once(svc, After(svc, s, q, script, j), q, script(j)).1
  }

  /** The delay before retry `n + 1`. */
  function Delay(base: real, n: nat): real {
    base * Pow2(n) as real
  }

  /** The time slept before attempt `n`: one delay per retry. */
  function Backoff(base: real, n: nat): real {
    if n == 0 then 0.0 else Backoff(base, n - 1) + Delay(base, n - 1)
  }

  lemma {:induction false} BackoffTotal(base: real, n: nat)
    ensures Backoff(base, n) == base * (Pow2(n) - 1) as real
  {
    if n > 0 {
      BackoffTotal(base, n - 1);
      var p := Pow2(n - 1) as real;
      assert (Pow2(n) - 1) as real == (p - 1.0) + p;
      assert base * ((p - 1.0) + p) == base * (p - 1.0) + base * p;
    }
  }

  const GENERIC_ERROR := "That request couldn't be completed."
  const DEAD_LETTER := "The assistant couldn't complete that action. Please try again in a moment."

  datatype ToolOutcome =
    | Ok(id: Id)
    | Err(status: Option<nat>, error: string)
    | Raised

  function Classify(seen: Seen): ToolOutcome {
    match seen
    case Success(id) => Ok(id)
    case Bug => Raised
    case Broken => Err(None, DEAD_LETTER)
    case Refused(status, detail) =>
      if Transient(seen) then Err(None, DEAD_LETTER)
      else if detail != "" && (status == Some(400) || status == Some(422)) then Err(status, detail)
      else Err(status, GENERIC_ERROR)
  }

  /** What the approval gate is told about one write. */
  datatype Outcome =
    | Applied(data: Option<Id>)
    | SkippedDuplicate
    | SkippedMissing
    | Failed(error: string)
    | Crashed

  function ToOutcome(out: ToolOutcome): Outcome {
    match out
    case Ok(id) => Applied(Some(id))
    case Err(status, error) =>
      if status == Some(409) then SkippedDuplicate
      else if status == Some(404) then SkippedMissing
      else Failed(if error != "" then error else "failed")
    case Raised => Crashed
  }

  function Executed(r: Run): Outcome {
    ToOutcome(Classify(r.seen))
  }

  predicate Settled(o: Outcome) {
    o.Applied? || o.SkippedDuplicate? || o.SkippedMissing?
  }

  /** The loop stops at the first attempt that is not transient, or at the last one allowed. */
  lemma {:induction false} RetriesExactly(svc: Service, s: Store, q: Request, script: Script, k: nat, max: nat)
    requires k <= max
    ensures var r := Invoke(svc, After(svc, s, q, script, k), q, script, k, max);
            && k <= r.retries <= max
            && r.store == After(svc, s, q, script, r.retries + 1)
            && r.seen == SeenAt(svc, s, q, script, r.retries)
            && (forall j :: k <= j < r.retries ==> Transient(SeenAt(svc, s, q, script, j)))
            && (Transient(r.seen) ==> r.retries == max)
    decreases max - k
  {
    hide Serve;
    var here := After(svc, s, q, script, k);
    var (t, seen) := Once(svc, here, q, script(k));
    assert After(svc, s, q, script, k + 1) == t;
    assert seen == SeenAt(svc, s, q, script, k);
    if Transient(seen) && k < max {
      RetriesExactly(svc, s, q, script, k + 1, max);
      assert Invoke(svc, here, q, script, k, max) == Invoke(svc, t, q, script, k + 1, max);
    } else {
      assert Invoke(svc, here, q, script, k, max) == Run(t, seen, k);
    }
  }

  /** However often the loop retries, the write takes effect once or not at all: once exactly when
      some attempt reached the service. */
  lemma {:induction false} AtMostOnce(svc: Service, s: Store, q: Request, script: Script, k: nat, max: nat)
    requires k <= max
    ensures var r := Invoke(svc, s, q, script, k, max);
            r.store == if exists j :: k <= j <= r.retries && Effective(script(j))
                       then Serve(svc, s, q).0 else s
    ensures k <= Invoke(svc, s, q, script, k, max).retries <= max
    decreases max - k
  {
    var (t, seen) := Once(svc, s, q, script(k));
    ServeTwice(svc, s, q);
    var r := Invoke(svc, s, q, script, k, max);
    if Transient(seen) && k < max {
      AtMostOnce(svc, t, q, script, k + 1, max);
      if Effective(script(k)) {
        assert t == Serve(svc, s, q).0;
        assert r.store == t;
      } else {
        assert t == s;
        if exists j :: k <= j <= r.retries && Effective(script(j)) {
          var j :| k <= j <= r.retries && Effective(script(j));
          assert k + 1 <= j;
        }
      }
    } else {
      assert r.retries == k;
      if exists j :: k <= j <= r.retries && Effective(script(j)) {
        var j :| k <= j <= r.retries && Effective(script(j));
        assert j == k;
      }
    }
  }

  /** "Applied", "duplicate" and "missing" are never said of a write that did not happen: in each of
      these cases the store is the one a single clean execution leaves. */
  lemma {:induction false} SettledIsTrue(svc: Service, s: Store, q: Request, script: Script, k: nat, max: nat)
    requires k <= max
    requires Settled(Executed(Invoke(svc, s, q, script, k, max)))
    ensures Invoke(svc, s, q, script, k, max).store == Serve(svc, s, q).0
    decreases max - k
  {
    var (t, seen) := Once(svc, s, q, script(k));
    if Transient(seen) && k < max {
      SettledIsTrue(svc, t, q, script, k + 1, max);
      ServeTwice(svc, s, q);
    }
  }

  /** An approved add: at most one copy whatever happens, exactly one when it is reported applied or
      duplicate, and then no re-run adds another. */
  lemma AddedOnce(svc: Service, s: Store, coll: Id, doc: Attrs, idem: string, script: Script, max: nat,
                  again: Script)
    requires Unique(svc, s)
    ensures var q := Add(coll, doc, idem);
            var r := Invoke(svc, s, q, script, 0, max);
            && Unique(svc, r.store)
            && (Executed(r).Applied? || Executed(r).SkippedDuplicate? ==>
                  && Holds(svc, r.store, KeyOf(svc, coll, doc))
                  && Invoke(svc, r.store, q, again, 0, max).store == r.store)
  {
    var q := Add(coll, doc, idem);
    var r := Invoke(svc, s, q, script, 0, max);
    AtMostOnce(svc, s, q, script, 0, max);
    ServeKeepsUnique(svc, s, q);
    if Executed(r).Applied? || Executed(r).SkippedDuplicate? {
      AnsweredAdd(svc, s, coll, doc, idem, script, 0, max);
      AtMostOnce(svc, r.store, q, again, 0, max);
    }
  }

  lemma {:induction false} AnsweredAdd(svc: Service, s: Store, coll: Id, doc: Attrs, idem: string,
                                       script: Script, k: nat, max: nat)
    requires k <= max
    requires var o := Executed(Invoke(svc, s, Add(coll, doc, idem), script, k, max));
             o.Applied? || o.SkippedDuplicate?
    ensures Holds(svc, Invoke(svc, s, Add(coll, doc, idem), script, k, max).store, KeyOf(svc, coll, doc))
    decreases max - k
  {
    var q := Add(coll, doc, idem);
    var (t, seen) := Once(svc, s, q, script(k));
    if Transient(seen) && k < max {
      AnsweredAdd(svc, t, coll, doc, idem, script, k + 1, max);
    } else {
      AddLands(svc, s, coll, doc, idem);
    }
  }

  lemma {:induction false} AnsweredRemove(svc: Service, s: Store, coll: Id, movie: Id, script: Script, k: nat, max: nat)
    requires k <= max
    requires var o := Executed(Invoke(svc, s, Remove(coll, movie), script, k, max));
             o.Applied? || o.SkippedMissing?
    ensures var t := Invoke(svc, s, Remove(coll, movie), script, k, max).store;
            coll in s.collections ==> movie !in t.movies || t.movies[movie].coll != coll
    decreases max - k
  {
    var (t, seen) := Once(svc, s, Remove(coll, movie), script(k));
    if Transient(seen) && k < max {
      AnsweredRemove(svc, t, coll, movie, script, k + 1, max);
    }
  }

  /** Every store the loop passes through is the one before the call or the one after it. */
  lemma {:induction false} TraceIsBeforeOrAfter(svc: Service, s: Store, q: Request, script: Script, k: nat, max: nat)
    requires k <= max
    ensures forall t :: t in InvokeTrace(svc, s, q, script, k, max) ==> t == s || t == Serve(svc, s, q).0
    ensures var trace := InvokeTrace(svc, s, q, script, k, max);
            var r := Invoke(svc, s, q, script, k, max);
            |trace| == r.retries + 1 - k && trace[|trace| - 1] == r.store
    decreases max - k
  {
    var (t, seen) := Once(svc, s, q, script(k));
    ServeTwice(svc, s, q);
    if Transient(seen) && k < max {
      TraceIsBeforeOrAfter(svc, t, q, script, k + 1, max);
    }
  }

  /** The converse of `SettledIsTrue` is false: a write reported as failed may be in the store.  The
      first reply is lost, every retry breaks. */
  lemma FailedMayHaveLanded(svc: Service, coll: Id, doc: Attrs, idem: string)
    ensures var s := Store(map[coll := "Sci-Fi"], map[]);
            var script: Script := k => if k == 0 then Faulted(true, Transport)
                                       else Faulted(false, Transport);
            var r := Invoke(svc, s, Add(coll, doc, idem), script, 0, 2);
            Executed(r) == Outcome.Failed(DEAD_LETTER) && Holds(svc, r.store, KeyOf(svc, coll, doc))
  {
    var s := Store(map[coll := "Sci-Fi"], map[]);
    var q := Add(coll, doc, idem);
    var script: Script := k => if k == 0 then Faulted(true, Transport)
                               else Faulted(false, Transport);
    assert Once(svc, s, q, script(0)).1 == Broken;
    AddLands(svc, s, coll, doc, idem);
    AtMostOnce(svc, s, q, script, 0, 2);
    assert Effective(script(0));
    RetriesExactly(svc, s, q, script, 0, 2);
    assert forall j: nat :: SeeFault(script(j).fault) == Broken;
  }

  /** One turn of the loop, as a rewriting of what is left to do. */
  lemma LoopStep(svc: Service, s: Store, q: Request, script: Script, k: nat, max: nat)
    requires k <= max
    ensures var (t, seen) := Once(svc, s, q, script(k));
            if Transient(seen) && k < max then
              && Invoke(svc, s, q, script, k, max) == Invoke(svc, t, q, script, k + 1, max)
              && InvokeTrace(svc, s, q, script, k, max) == [t] + InvokeTrace(svc, t, q, script, k + 1, max)
            else
              && Invoke(svc, s, q, script, k, max) == Run(t, seen, k)
              && InvokeTrace(svc, s, q, script, k, max) == [t]
  {
    hide Serve, Once;
  }

  // ----- what each attempt means -----

  /** The attempt meets trouble at the server or on the way to it: the loop tries again. */
  predicate Troubled(svc: Service, s: Store, q: Request, a: Attempt) {
    match a
    case Delivered => var r := Serve(svc, s, q).1; r.Status? && r.code >= 500
    case Faulted(_, fault) => fault.Transport? || (fault.Http? && fault.code >= 500)
  }

  /** What the gate is told when the attempt is the last one. */
  function Told(svc: Service, s: Store, q: Request, a: Attempt): Outcome {
    match a
    case Delivered =>
      (match Serve(svc, s, q).1
       case Done(id) => Applied(Some(id))
       case Status(code) =>
         if code == 409 then SkippedDuplicate
         else if code == 404 then SkippedMissing
         else if code >= 500 then Failed(DEAD_LETTER)
         else Failed(GENERIC_ERROR))
    case Faulted(_, fault) =>
      match fault
      case Transport => Failed(DEAD_LETTER)
      case Fatal => Crashed
      case Opaque => Failed(GENERIC_ERROR)
      case Http(code, detail) =>
        if code >= 500 then Failed(DEAD_LETTER)
        else if (code == 400 || code == 422) && detail != "" then Failed(detail)
        else Failed(GENERIC_ERROR)
  }

  /** One turn of the loop in these terms. */
  lemma TurnIsTold(svc: Service, s: Store, q: Request, script: Script, k: nat, max: nat)
    requires k <= max
    ensures var t := Once(svc, s, q, script(k)).0;
            var r := Invoke(svc, s, q, script, k, max);
            if Troubled(svc, s, q, script(k)) && k < max then r == Invoke(svc, t, q, script, k + 1, max)
            else r.retries == k && Executed(r) == Told(svc, s, q, script(k))
  {
    TroubleIsRetried(svc, s, q, script(k));
    LoopStep(svc, s, q, script, k, max);
    hide Serve, Once, Troubled, Transient, Told, Executed, Invoke;
  }

  /** Attempt `j` meets trouble when it is reached. */
  predicate TroubledAt(svc: Service, s: Store, q: Request, script: Script, j: nat) {
    Troubled(svc, After(svc, s, q, script, j), q, script(j))
  }

  function ToldAt(svc: Service, s: Store, q: Request, script: Script, j: nat): Outcome {
    Told(svc, After(svc, s, q, script, j), q, script(j))
  }

  lemma AtAttempt(svc: Service, s: Store, q: Request, script: Script, k: nat)
    ensures var here := After(svc, s, q, script, k);
            && After(svc, s, q, script, k + 1) == Once(svc, here, q, script(k)).0
            && TroubledAt(svc, s, q, script, k) == Troubled(svc, here, q, script(k))
            && ToldAt(svc, s, q, script, k) == Told(svc, here, q, script(k))
  {
    hide Serve, Once, Troubled, Told;
  }

  /** The run, attempt by attempt: all before the last met trouble, the last did not or was the last one
      allowed, and it decides what is reported. */
  lemma {:induction false} RunIsTold(svc: Service, s: Store, q: Request, script: Script, k: nat, max: nat)
    requires k <= max
    ensures var r := Invoke(svc, After(svc, s, q, script, k), q, script, k, max);
            && k <= r.retries <= max
            && (forall j: nat | k <= j < r.retries :: TroubledAt(svc, s, q, script, j))
            && (r.retries < max ==> !TroubledAt(svc, s, q, script, r.retries))
            && Executed(r) == ToldAt(svc, s, q, script, r.retries)
    decreases max - k
  {
    hide *;
    var here := After(svc, s, q, script, k);
    AtAttempt(svc, s, q, script, k);
    TurnIsTold(svc, here, q, script, k, max);
    if Troubled(svc, here, q, script(k)) && k < max {
      RunIsTold(svc, s, q, script, k + 1, max);
    }
  }

  lemma TroubleIsRetried(svc: Service, s: Store, q: Request, a: Attempt)
    ensures var (t, seen) := Once(svc, s, q, a);
            && (Troubled(svc, s, q, a) <==> Transient(seen))
            && forall k :: Executed(Run(t, seen, k)) == Told(svc, s, q, a)
  {
    hide Serve;
  }

  /** Every status of 500 or more on the first attempt is followed by a second attempt; if that one is answered
      and has the service's own word, it decides the outcome, and the write is in the store. */
  lemma ServerErrorIsRetried(svc: Service, s: Store, q: Request, script: Script, max: nat, effect: bool,
                             code: FaultCode, detail: string)
    requires code >= 500 && max > 0 && script(0) == Faulted(effect, Http(code, detail))
    ensures var r := Invoke(svc, s, q, script, 0, max);
            && r.retries >= 1
            && (var s1 := if effect then Serve(svc, s, q).0 else s;
                var (t, reply) := Serve(svc, s1, q);
                script(1) == Delivered ==>
                  && (reply.Done? ==> r.retries == 1 && Executed(r) == Applied(Some(reply.id)))
                  && (reply == Status(409) ==> r.retries == 1 && Executed(r) == SkippedDuplicate)
                  && (reply == Status(404) ==> r.retries == 1 && Executed(r) == SkippedMissing)
                  && r.store == t)
  {
    var s1 := if effect then Serve(svc, s, q).0 else s;
    var (t, reply) := Serve(svc, s1, q);
    assert After(svc, s, q, script, 0) == s && After(svc, s, q, script, 1) == s1;
    RunIsTold(svc, s, q, script, 0, max);
    var r := Invoke(svc, s, q, script, 0, max);
    if script(1) == Delivered {
      AtMostOnce(svc, s, q, script, 0, max);
      assert Effective(script(1));
      ServeTwice(svc, s, q);
      hide Serve, Invoke, After;
      assert Troubled(svc, s, q, script(0));
    }
  }

  /** A refusal below 500, of the service itself or of anything in between, ends the loop at once. */
  lemma RefusalEndsTheLoop(svc: Service, s: Store, q: Request, script: Script, max: nat)
    requires match script(0)
             case Delivered => Serve(svc, s, q).1.Status? && Serve(svc, s, q).1.code < 500
             case Faulted(_, fault) => fault.Opaque? || fault.Fatal? || (fault.Http? && fault.code < 500)
    ensures Invoke(svc, s, q, script, 0, max).retries == 0
    ensures Executed(Invoke(svc, s, q, script, 0, max)) == Told(svc, s, q, script(0))
  {
    assert After(svc, s, q, script, 0) == s;
    RunIsTold(svc, s, q, script, 0, max);
    hide Serve, Invoke;
  }

  // ----- what the script alone decides -----

  /** The attempt fails in a way the loop retries. */
  predicate Retried(a: Attempt) {
    a.Faulted? && Transient(SeeFault(a.fault))
  }

  /** ... and did not even take effect. */
  predicate Fruitless(a: Attempt) {
    Retried(a) && !a.effect
  }

  /** Attempt `j` is the first that is not fruitless. */
  predicate FirstFruitful(script: Script, k: nat, j: nat) {
    k <= j && !Fruitless(script(j)) && forall i | k <= i < j :: Fruitless(script(i))
  }

  /** The first attempt from `k` on that is not fruitless takes effect, and the loop gets that far. */
  ghost predicate Reaches(script: Script, k: nat, max: nat) {
    exists j: nat :: j <= max && FirstFruitful(script, k, j) && Effective(script(j))
  }

  /** ... and is answered too. */
  ghost predicate AnsweredAtOnce(script: Script, k: nat, max: nat) {
    exists j: nat :: j <= max && FirstFruitful(script, k, j) && script(j).Delivered?
  }

  /** Attempt `j` is the first that is not retried. */
  predicate FirstFinal(script: Script, k: nat, j: nat) {
    k <= j && !Retried(script(j)) && forall i | k <= i < j :: Retried(script(i))
  }

  ghost predicate Answered(script: Script, k: nat, max: nat) {
    exists j: nat :: j <= max && FirstFinal(script, k, j) && script(j).Delivered?
  }

  lemma ReachesStep(script: Script, k: nat, max: nat)
    requires k <= max
    ensures Reaches(script, k, max) <==>
              if Fruitless(script(k)) then k < max && Reaches(script, k + 1, max) else Effective(script(k))
    ensures AnsweredAtOnce(script, k, max) <==>
              if Fruitless(script(k)) then k < max && AnsweredAtOnce(script, k + 1, max) else script(k).Delivered?
    ensures Answered(script, k, max) <==>
              if Retried(script(k)) then k < max && Answered(script, k + 1, max) else script(k).Delivered?
  {
    if Fruitless(script(k)) {
      assert forall j: nat | j != k :: FirstFruitful(script, k, j) <==> FirstFruitful(script, k + 1, j);
      assert !FirstFruitful(script, k, k);
    } else {
      assert forall j: nat :: FirstFruitful(script, k, j) <==> j == k;
    }
    if Retried(script(k)) {
      assert forall j: nat | j != k :: FirstFinal(script, k, j) <==> FirstFinal(script, k + 1, j);
      assert !FirstFinal(script, k, k);
    } else {
      assert forall j: nat :: FirstFinal(script, k, j) <==> j == k;
    }
  }

  /** Whether a write takes effect is decided before the first call is made. */
  lemma {:induction false} EffectIsDecided(svc: Service, s: Store, q: Request, script: Script, k: nat, max: nat)
    requires k <= max
    ensures Invoke(svc, s, q, script, k, max).store == if Reaches(script, k, max) then Serve(svc, s, q).0 else s
    decreases max - k
  {
    hide Reaches, AnsweredAtOnce, Answered, FirstFruitful, FirstFinal;
    ReachesStep(script, k, max);
    LoopStep(svc, s, q, script, k, max);
    if Fruitless(script(k)) && k < max {
      EffectIsDecided(svc, s, q, script, k + 1, max);
    } else if Effective(script(k)) {
      var t := Serve(svc, s, q).0;
      ServeTwice(svc, s, q);
      if k < max {
        AtMostOnce(svc, t, q, script, k + 1, max);
      }
    }
  }

  /** A request that changes nothing gets its answer exactly when the first attempt that is not retried is
      delivered. */
  lemma {:induction false} IdleAnswer(svc: Service, s: Store, q: Request, script: Script, k: nat, max: nat)
    requires k <= max
    requires Serve(svc, s, q).0 == s && !Transient(See(Serve(svc, s, q).1))
    ensures var r := Invoke(svc, s, q, script, k, max);
            && r.store == s
            && (Answered(script, k, max) ==> r.seen == See(Serve(svc, s, q).1))
            && (!Answered(script, k, max) ==> exists f: Fault :: r.seen == SeeFault(f))
    decreases max - k
  {
    hide Reaches, AnsweredAtOnce, Answered, FirstFruitful, FirstFinal, Serve;
    ReachesStep(script, k, max);
    LoopStep(svc, s, q, script, k, max);
    if Retried(script(k)) && k < max {
      IdleAnswer(svc, s, q, script, k + 1, max);
    }
  }

  /** A write that can be made once and is refused the second time is reported applied exactly when the first
      attempt that is not fruitless is answered; made but not answered at once, it is reported refused when a
      later attempt is answered, and failed when none is. */
  lemma {:induction false} OnceIsReported(svc: Service, s: Store, q: Request, id: Id, again: nat, script: Script,
                                          k: nat, max: nat)
    requires k <= max && again < 500 && Serve(svc, s, q).1 == Done(id)
    requires var t := Serve(svc, s, q).0; Serve(svc, t, q) == (t, Status(again))
    ensures var o := Executed(Invoke(svc, s, q, script, k, max));
            && (o.Applied? <==> AnsweredAtOnce(script, k, max))
            && (o.Applied? ==> o.data == Some(id))
            && (Answered(script, k, max) && !AnsweredAtOnce(script, k, max) ==>
                  o == Told(svc, Serve(svc, s, q).0, q, Delivered))
            && (!Answered(script, k, max) && !AnsweredAtOnce(script, k, max) ==> o.Failed? || o.Crashed?)
    decreases max - k
  {
    hide Reaches, AnsweredAtOnce, Answered, FirstFruitful, FirstFinal, Serve;
    var t := Serve(svc, s, q).0;
    ReachesStep(script, k, max);
    LoopStep(svc, s, q, script, k, max);
    if Fruitless(script(k)) && k < max {
      OnceIsReported(svc, s, q, id, again, script, k + 1, max);
    } else if Retried(script(k)) && k < max {
      IdleAnswer(svc, t, q, script, k + 1, max);
    }
  }

  /** A write the service does every time it is asked is reported applied exactly when the first attempt that is not
      retried is answered. */
  lemma {:induction false} RepeatIsReported(svc: Service, s: Store, q: Request, id: Id, script: Script, k: nat, max: nat)
    requires k <= max && Serve(svc, s, q).1 == Done(id)
    requires var t := Serve(svc, s, q).0; Serve(svc, t, q) == (t, Done(id))
    ensures var o := Executed(Invoke(svc, s, q, script, k, max));
            && (o.Applied? <==> Answered(script, k, max))
            && (o.Applied? ==> o.data == Some(id))
            && (!Answered(script, k, max) ==> o.Failed? || o.Crashed?)
    decreases max - k
  {
    hide Reaches, AnsweredAtOnce, Answered, FirstFruitful, FirstFinal, Serve;
    ReachesStep(script, k, max);
    LoopStep(svc, s, q, script, k, max);
    if Fruitless(script(k)) && k < max {
      RepeatIsReported(svc, s, q, id, script, k + 1, max);
    } else if Retried(script(k)) && k < max {
      IdleAnswer(svc, Serve(svc, s, q).0, q, script, k + 1, max);
    }
  }

  /** The link to the service: the store behind it, and what the caller spent on it. */
  class Wire {
    const svc: Service
    var store: Store
    var calls: nat
    var slept: real
    ghost var history: seq<Store>   // the store after every attempt made on this wire

    constructor (svc: Service, store: Store)
      ensures this.svc == svc && this.store == store
      ensures calls == 0 && slept == 0.0 && history == []
    {
      this.svc, this.store := svc, store;
      calls, slept, history := 0, 0.0, [];
    }

    method Send(q: Request, a: Attempt) returns (seen: Seen)
      modifies this
      ensures (store, seen) == Once(svc, old(store), q, a)
      ensures calls == old(calls) + 1 && slept == old(slept)
      ensures history == old(history) + [store]
    {
      match a {
        case Delivered =>
          var (t, r) := Serve(svc, store, q);
          store, seen := t, See(r);
        case Faulted(effect, fault) =>
          if effect {
            store := Serve(svc, store, q).0;
          }
          seen := SeeFault(fault);
      }
      calls := calls + 1;
      history := history + [store];
    }

    method InvokeTool(q: Request, script: Script, maxRetries: nat, backoffBase: real) returns (out: ToolOutcome)
      modifies this
      ensures var r := Invoke(svc, old(store), q, script, 0, maxRetries);
              && store == r.store
              && out == Classify(r.seen)
              && r.retries <= maxRetries
              && calls == old(calls) + r.retries + 1
              && slept == old(slept) + Backoff(backoffBase, r.retries)
      ensures history == old(history) + InvokeTrace(svc, old(store), q, script, 0, maxRetries)
    {
      hide Serve, Delay, Once, Invoke, InvokeTrace;
      var attempt := 0;
      ghost var passed: seq<Store> := [];
      while true
        invariant attempt <= maxRetries
        invariant calls == old(calls) + attempt
        invariant slept == old(slept) + Backoff(backoffBase, attempt)
        invariant Invoke(svc, old(store), q, script, 0, maxRetries) == Invoke(svc, store, q, script, attempt, maxRetries)
        invariant history == old(history) + passed
        invariant InvokeTrace(svc, old(store), q, script, 0, maxRetries)
                  == passed + InvokeTrace(svc, store, q, script, attempt, maxRetries)
        decreases maxRetries - attempt
      {
        LoopStep(svc, store, q, script, attempt, maxRetries);
        ghost var earlier := passed;
        var seen := Send(q, script(attempt));
        passed := passed + [store];
        if !Transient(seen) || attempt >= maxRetries {
          out := Classify(seen);
          return;
        }
        slept := slept + Delay(backoffBase, attempt);
        attempt := attempt + 1;
        assert earlier + ([store] + InvokeTrace(svc, store, q, script, attempt, maxRetries))
            == passed + InvokeTrace(svc, store, q, script, attempt, maxRetries);
      }
    }
  }
}
