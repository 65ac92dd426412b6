/**
  `process_image`: one receipt image goes through encode, send, parse,
  insert and move; when the parse fails or a step raises, the whole attempt
  is made once more with `retry` set, and a second failure ends in a
  warning dialog. Reading the image, the HTTP request, the database insert,
  the file move and the dialog are outside the model: what they do on each
  attempt is given as an `AttemptIO`, whether showing the dialog raises is
  a flag, and what the outside world sees is recorded as a log of effects.
*/
module ImageProcessing {
  import opened Wrappers
  import opened ReceiptReader

  type Path = string

  /** What the collaborators do on one attempt: the decoded response of the
      request, or `None` when reading the image or sending the request
      raised; whether the database insert raises; whether the file move
      raises. */
  datatype AttemptIO = AttemptIO(reply: Option<Json>, insertRaises: bool, moveRaises: bool)

  /** The two warnings shown after the retry: the extracted data was still
      wrong, or a step raised. */
  datatype Reason = IncorrectData | ProcessingError

  /** What the outside world sees of one image. */
  datatype Effect =
    | Inserted(receipt: Receipt, eventId: int)
    | Moved(image: Path, destination: Path)
    | Warned(image: Path, reason: Reason)

  /** How one attempt ends: a receipt stored (and the image moved unless the
      move raised), a reply that did not parse, or an exception. */
  datatype Attempt = Stored(receipt: Receipt, moved: bool) | Unparsed | Raised

  /** One attempt of the source's `try` block. A parsed receipt is stored
      unless the insert raises; an exception of the move is only logged. */
  function RunAttempt(io: AttemptIO): (a: Attempt)
    ensures a.Stored? <==> io.reply.Some? && ResponseReceipt(io.reply.value).Some? && !io.insertRaises
    ensures a.Stored? ==> ResponseReceipt(io.reply.value) == Some(a.receipt) && a.moved == !io.moveRaises
    ensures a.Unparsed? <==> io.reply.Some? && ResponseReceipt(io.reply.value).None?
  {
    match io.reply
    case None => Raised
    case Some(response) =>
      match ResponseReceipt(response)
      case None => Unparsed
      case Some(receipt) => if io.insertRaises then Raised else Stored(receipt, !io.moveRaises)
  }

  /** What one attempt leaves behind: the inserted receipt, then the moved
      image; nothing when the attempt failed. */
  function AttemptEffects(a: Attempt, image: Path, destination: Path, eventId: int): seq<Effect> {
    match a
    case Stored(receipt, moved) =>
      [Inserted(receipt, eventId)] + (if moved then [Moved(image, destination)] else [])
    case _ => []
  }

  /** What the attempt made with `retry` set leaves behind: its effects when
      it stored a receipt, otherwise the warning for how it failed. */
  function RetryEffects(a: Attempt, image: Path, destination: Path, eventId: int): seq<Effect> {
    match a
    case Stored(_, _) => AttemptEffects(a, image, destination, eventId)
    case Unparsed => [Warned(image, IncorrectData)]
    case Raised => [Warned(image, ProcessingError)]
  }

  /** The retry rule on the results of the two attempts: the first attempt's
      effects when it stored a receipt, otherwise those of the retry. */
  function Outcome(first: Attempt, second: Attempt, image: Path, destination: Path, eventId: int): seq<Effect> {
    if first.Stored? then AttemptEffects(first, image, destination, eventId)
    else RetryEffects(second, image, destination, eventId)
  }

  /** The number of attempts the retry rule makes: the second only when
      the first did not store a receipt. */
  function AttemptsMade(world: nat -> AttemptIO): (n: nat)
    ensures 1 <= n <= 2
    ensures n == 2 <==> !RunAttempt(world(0)).Stored?
  {
    if RunAttempt(world(0)).Stored? then 1 else 2
  }

  /** The retry rule for one image: what `process_image` does when the
      warning dialog is shown. */
  function ImageEffects(world: nat -> AttemptIO, image: Path, destination: Path, eventId: int): seq<Effect> {
    Outcome(RunAttempt(world(0)), RunAttempt(world(1)), image, destination, eventId)
  }

  // ---------------------------------------------------------------------
  // The calls as written, with a warning dialog that may raise
  // ---------------------------------------------------------------------

  /** What one call of `process_image` did: its effects, the attempts it
      made, and whether an exception escaped from it. */
  datatype Call = Call(effects: seq<Effect>, attempts: nat, escaped: bool)

  /** The collaborators' behaviour from attempt `n` on. */
  function Later(world: nat -> AttemptIO, n: nat): nat -> AttemptIO {
    (k: nat) => world(k + n)
  }

  /** A call with `retry` set, whose attempt ended in `a`: when it failed,
      the warning, or, when showing the warning raises, an exception out of
      the call (the handler's own warning raises as well). */
  function RetryCall(a: Attempt, warningRaises: bool, image: Path, destination: Path, eventId: int): (c: Call)
    ensures c.attempts == 1
    ensures c.escaped <==> warningRaises && !a.Stored?
  {
    if a.Stored? || !warningRaises then Call(RetryEffects(a, image, destination, eventId), 1, false)
    else Call([], 1, true)
  }

  /** The call without `retry`, on the outcomes of the attempts it may
      make. When its reply did not parse, the retry runs inside its `try`,
      so an exception escaping the retry reaches its handler, which retries
      a second time; when its own attempt raised, the retry runs in the
      handler and an exception escapes with it. */
  function Calls(first: Attempt, second: Attempt, third: Attempt, warningRaises: bool,
                 image: Path, destination: Path, eventId: int): (c: Call)
    ensures 1 <= c.attempts <= 3
    ensures c.attempts == 1 <==> first.Stored?
    ensures c.attempts == 3 <==> warningRaises && first.Unparsed? && !second.Stored?
  {
    if first.Stored? then Call(AttemptEffects(first, image, destination, eventId), 1, false)
    else
      var retried := RetryCall(second, warningRaises, image, destination, eventId);
      if first.Unparsed? && retried.escaped then
        var last := RetryCall(third, warningRaises, image, destination, eventId);
        Call(retried.effects + last.effects, 3, last.escaped)
      else Call(retried.effects, 2, retried.escaped)
  }

  lemma ConcatAssoc(a: seq<Effect>, b: seq<Effect>, c: seq<Effect>)
    ensures (a + b) + c == a + (b + c)
  {
  }

  lemma LaterFirst(world: nat -> AttemptIO, n: nat)
    ensures Later(world, n)(0) == world(n)
  {
  }

  /** Everything one top-level call of `process_image` does. */
  function ImageCall(world: nat -> AttemptIO, warningRaises: bool, image: Path, destination: Path, eventId: int): Call {
    Calls(RunAttempt(world(0)), RunAttempt(world(1)), RunAttempt(world(2)), warningRaises, image, destination, eventId)
  }

  /** The effects the receipt reader has on the database, the processed
      folder and the user, and the number of attempts it has made. */
  class ReceiptProcessor {
    var effects: seq<Effect>
    var attempts: nat

    constructor ()
      ensures effects == [] && attempts == 0
    {
      effects := [];
      attempts := 0;
    }

    /** `process_image(image, destination, ..., event_id, retry)`: the
        call's own attempt uses `world(0)`, and the calls it makes are given
        the attempts after it. Returns whether an exception escapes. */
    method ProcessImage(image: Path, destination: Path, eventId: int, world: nat -> AttemptIO,
                        warningRaises: bool, retry: bool) returns (escaped: bool)
      modifies this
      ensures retry ==>
        var c := RetryCall(RunAttempt(world(0)), warningRaises, image, destination, eventId);
        effects == old(effects) + c.effects && attempts == old(attempts) + c.attempts && escaped == c.escaped
      ensures !retry ==>
        var c := ImageCall(world, warningRaises, image, destination, eventId);
        effects == old(effects) + c.effects && attempts == old(attempts) + c.attempts && escaped == c.escaped
      decreases !retry
    {
      var outcome := TryOnce(image, destination, eventId, world(0));
      escaped := false;
      if outcome.Stored? {
        return;
      }
      assert effects == old(effects);
      if retry {
        if outcome.Unparsed? {
          escaped := Warn(image, IncorrectData, warningRaises);
          if escaped {
            // the dialog's exception reaches the handler, whose own dialog raises too
            escaped := Warn(image, ProcessingError, warningRaises);
          }
        } else {
          escaped := Warn(image, ProcessingError, warningRaises);
        }
        return;
      }
      ghost var second, third := RunAttempt(world(1)), RunAttempt(world(2));
      LaterFirst(world, 1);
      var nested := ProcessImage(image, destination, eventId, Later(world, 1), warningRaises, true);
      escaped := nested;
      if nested && outcome.Unparsed? {
        // the retry's exception reaches this call's handler, which retries again
        LaterFirst(world, 2);
        ghost var before := effects;
        escaped := ProcessImage(image, destination, eventId, Later(world, 2), warningRaises, true);
        ghost var retried := RetryCall(second, warningRaises, image, destination, eventId).effects;
        ghost var last := RetryCall(third, warningRaises, image, destination, eventId).effects;
        assert before == old(effects) + retried;
        assert effects == before + last;
        ConcatAssoc(old(effects), retried, last);
      }
    }

    /** The `try` block of `process_image`: encode, send, parse; on a parsed
        receipt, insert it and move the image. */
    method TryOnce(image: Path, destination: Path, eventId: int, io: AttemptIO) returns (outcome: Attempt)
      modifies this
      ensures outcome == RunAttempt(io)
      ensures effects == old(effects) + AttemptEffects(outcome, image, destination, eventId)
      ensures attempts == old(attempts) + 1
    {
      attempts := attempts + 1;
      if io.reply.None? {
        // reading the image or sending the request raised
        return Raised;
      }
      var record, parseError := ParseResponse(io.reply.value);
      if record.None? {
        return Unparsed;
      }
      if io.insertRaises {
        return Raised;
      }
      effects := effects + [Inserted(record.value, eventId)];
      if !io.moveRaises {
        // an exception of the move is caught and only logged
        effects := effects + [Moved(image, destination)];
      }
      return Stored(record.value, !io.moveRaises);
    }

    /** `ui.messagebox.showwarning(...)`: the warning is shown, or showing
        it raises. */
    method Warn(image: Path, reason: Reason, warningRaises: bool) returns (raised: bool)
      modifies this
      ensures raised == warningRaises
      ensures effects == old(effects) + if warningRaises then [] else [Warned(image, reason)]
      ensures attempts == old(attempts)
    {
      raised := warningRaises;
      if !warningRaises {
        effects := effects + [Warned(image, reason)];
      }
    }
  }

  // ---------------------------------------------------------------------
  // Properties of the retry rule
  // ---------------------------------------------------------------------

  /** With the warning dialog shown, `process_image` follows the retry
      rule: at most two attempts, and no exception escapes. */
  lemma WarningShownRule(world: nat -> AttemptIO, image: Path, destination: Path, eventId: int)
    ensures ImageCall(world, false, image, destination, eventId)
         == Call(ImageEffects(world, image, destination, eventId), AttemptsMade(world), false)
  {
    var first, second := RunAttempt(world(0)), RunAttempt(world(1));
    assert !RetryCall(second, false, image, destination, eventId).escaped;
  }

  /** The attempt among three that a call with `n` attempts made last. */
  function LastOf(first: Attempt, second: Attempt, third: Attempt, n: nat): Attempt {
    if n <= 1 then first else if n == 2 then second else third
  }

  /** With a dialog that raises, no warning is ever shown: an exception
      escapes exactly when the last attempt made stored nothing (and then
      no attempt did), and otherwise the effects are those of that last
      attempt. */
  lemma WarningRaisesOutcome(first: Attempt, second: Attempt, third: Attempt, image: Path, destination: Path, eventId: int)
    ensures var c := Calls(first, second, third, true, image, destination, eventId);
      var last := LastOf(first, second, third, c.attempts);
      && (forall e :: e in c.effects ==> !e.Warned?)
      && (c.escaped <==> !last.Stored?)
      && (c.escaped ==> c.effects == [] && !first.Stored? && !second.Stored?)
      && (!c.escaped ==> c.effects == AttemptEffects(last, image, destination, eventId))
  {
    if !first.Stored? && !second.Stored? && first.Unparsed? {
      var e := AttemptEffects(third, image, destination, eventId);
      assert [] + e == e;
    }
  }

  /** Two replies that do not parse and a third that does: with a dialog
      that raises, the receipt is inserted after a third attempt, where the
      retry rule makes two attempts and warns that the data is incorrect. */
  lemma ThirdAttemptInserts(world: nat -> AttemptIO, receipt: Receipt, image: Path, destination: Path, eventId: int)
    requires world(0).reply.Some? && ResponseReceipt(world(0).reply.value) == None
    requires world(1).reply.Some? && ResponseReceipt(world(1).reply.value) == None
    requires world(2).reply.Some? && ResponseReceipt(world(2).reply.value) == Some(receipt)
    requires !world(2).insertRaises && !world(2).moveRaises
    ensures ImageCall(world, true, image, destination, eventId)
         == Call([Inserted(receipt, eventId), Moved(image, destination)], 3, false)
    ensures ImageCall(world, false, image, destination, eventId)
         == Call([Warned(image, IncorrectData)], 2, false)
  {
    assert RunAttempt(world(0)) == Unparsed && RunAttempt(world(1)) == Unparsed;
    assert RunAttempt(world(2)) == Stored(receipt, true);
    UnparsedTwice(receipt, image, destination, eventId);
  }

  lemma UnparsedTwice(receipt: Receipt, image: Path, destination: Path, eventId: int)
    ensures Calls(Unparsed, Unparsed, Stored(receipt, true), true, image, destination, eventId)
         == Call([Inserted(receipt, eventId), Moved(image, destination)], 3, false)
    ensures Calls(Unparsed, Unparsed, Stored(receipt, true), false, image, destination, eventId)
         == Call([Warned(image, IncorrectData)], 2, false)
  {
    var stored := [Inserted(receipt, eventId), Moved(image, destination)];
    assert [] + stored == stored;
  }

  /** What is inserted is exactly the receipt parsed from one of the replies
      of the attempts made, filed under the given event. */
  lemma InsertOnlyParsed(world: nat -> AttemptIO, warningRaises: bool, image: Path, destination: Path, eventId: int, e: Effect)
    requires e in ImageCall(world, warningRaises, image, destination, eventId).effects && e.Inserted?
    ensures e.eventId == eventId
    ensures exists k :: 0 <= k < ImageCall(world, warningRaises, image, destination, eventId).attempts
                        && world(k).reply.Some? && ResponseReceipt(world(k).reply.value) == Some(e.receipt)
  {
    var k := LastAttemptStored(world, warningRaises, image, destination, eventId);
    StoredInsert(world(k), image, destination, eventId, e);
  }

  /** An insert among the effects of one attempt is that attempt's parsed
      receipt. */
  lemma StoredInsert(io: AttemptIO, image: Path, destination: Path, eventId: int, e: Effect)
    requires RunAttempt(io).Stored?
    requires e in AttemptEffects(RunAttempt(io), image, destination, eventId) && e.Inserted?
    ensures e.eventId == eventId
    ensures io.reply.Some? && ResponseReceipt(io.reply.value) == Some(e.receipt)
  {
  }

  /** The effects of a call that left anything other than a warning are
      those of its last attempt, the one that stored. */
  lemma StoredLast(first: Attempt, second: Attempt, third: Attempt, warningRaises: bool,
                   image: Path, destination: Path, eventId: int)
    ensures var c := Calls(first, second, third, warningRaises, image, destination, eventId);
      var last := LastOf(first, second, third, c.attempts);
      (exists e :: e in c.effects && !e.Warned?)
        ==> last.Stored? && c.effects == AttemptEffects(last, image, destination, eventId)
  {
    if warningRaises {
      WarningRaisesOutcome(first, second, third, image, destination, eventId);
    } else if !first.Stored? && !second.Stored? {
      var reason := if second.Unparsed? then IncorrectData else ProcessingError;
      assert Calls(first, second, third, warningRaises, image, destination, eventId).effects == [Warned(image, reason)];
    }
  }

  lemma LastAttemptStored(world: nat -> AttemptIO, warningRaises: bool, image: Path, destination: Path, eventId: int)
      returns (k: nat)
    ensures k + 1 == ImageCall(world, warningRaises, image, destination, eventId).attempts
    ensures (exists e :: e in ImageCall(world, warningRaises, image, destination, eventId).effects && !e.Warned?)
        ==> RunAttempt(world(k)).Stored?
            && ImageCall(world, warningRaises, image, destination, eventId).effects
               == AttemptEffects(RunAttempt(world(k)), image, destination, eventId)
  {
    var first, second, third := RunAttempt(world(0)), RunAttempt(world(1)), RunAttempt(world(2));
    var c := ImageCall(world, warningRaises, image, destination, eventId);
    StoredLast(first, second, third, warningRaises, image, destination, eventId);
    if c.attempts == 1 {
      k := 0;
    } else if c.attempts == 2 {
      k := 1;
    } else {
      k := 2;
    }
  }

  /** The ways one call can end, on the outcomes of its attempts. */
  lemma CallShapes(first: Attempt, second: Attempt, third: Attempt, warningRaises: bool,
                   image: Path, destination: Path, eventId: int)
    ensures var c := Calls(first, second, third, warningRaises, image, destination, eventId);
      || (!c.escaped && exists r :: c.effects == [Inserted(r, eventId)])
      || (!c.escaped && exists r :: c.effects == [Inserted(r, eventId), Moved(image, destination)])
      || (!warningRaises && !c.escaped && exists reason :: c.effects == [Warned(image, reason)])
      || (warningRaises && c.escaped && c.effects == [])
  {
    var c := Calls(first, second, third, warningRaises, image, destination, eventId);
    var last := LastOf(first, second, third, c.attempts);
    if warningRaises {
      WarningRaisesOutcome(first, second, third, image, destination, eventId);
      if !c.escaped {
        StoredShapes(last, image, destination, eventId);
      }
    } else if first.Stored? || second.Stored? {
      StoredShapes(last, image, destination, eventId);
    } else {
      var reason := if second.Unparsed? then IncorrectData else ProcessingError;
      assert c.effects == [Warned(image, reason)];
    }
  }

  /** An image ends in one of four ways: its receipt inserted once, then
      the image moved once unless the move raised; a single warning with
      nothing inserted or moved, when the dialog shows; or, when the dialog
      raises, nothing at all and an exception out of `process_image`. */
  lemma OutcomeShapes(world: nat -> AttemptIO, warningRaises: bool, image: Path, destination: Path, eventId: int)
    ensures var c := ImageCall(world, warningRaises, image, destination, eventId);
      || (!c.escaped && exists r :: c.effects == [Inserted(r, eventId)])
      || (!c.escaped && exists r :: c.effects == [Inserted(r, eventId), Moved(image, destination)])
      || (!warningRaises && !c.escaped && exists reason :: c.effects == [Warned(image, reason)])
      || (warningRaises && c.escaped && c.effects == [])
  {
    CallShapes(RunAttempt(world(0)), RunAttempt(world(1)), RunAttempt(world(2)), warningRaises, image, destination, eventId);
  }

  /** A stored attempt leaves its insert, then the move unless it raised. */
  lemma StoredShapes(a: Attempt, image: Path, destination: Path, eventId: int)
    requires a.Stored?
    ensures || (a.moved && AttemptEffects(a, image, destination, eventId) == [Inserted(a.receipt, eventId), Moved(image, destination)])
            || (!a.moved && AttemptEffects(a, image, destination, eventId) == [Inserted(a.receipt, eventId)])
  {
  }

  /** Two failed attempts, on the outcomes of the attempts. */
  lemma FailedTwice(first: Attempt, second: Attempt, third: Attempt, warningRaises: bool,
                    image: Path, destination: Path, eventId: int)
    requires !first.Stored? && !second.Stored?
    ensures var c := Calls(first, second, third, warningRaises, image, destination, eventId);
      && (!warningRaises ==> c.attempts == 2 && !c.escaped && exists reason :: c.effects == [Warned(image, reason)])
      && (warningRaises ==> (c.attempts == 3 <==> first.Unparsed?))
      && (warningRaises && c.attempts == 2 ==> c.escaped && c.effects == [])
      && (warningRaises && !third.Stored? ==> c.escaped && c.effects == [])
  {
    var c := Calls(first, second, third, warningRaises, image, destination, eventId);
    if warningRaises {
      WarningRaisesOutcome(first, second, third, image, destination, eventId);
    } else {
      var reason := if second.Unparsed? then IncorrectData else ProcessingError;
      assert c.effects == [Warned(image, reason)];
    }
  }

  /** Two failed attempts leave nothing in the database and the image where
      it was. With the dialog shown, the user is warned after those two
      attempts; with a dialog that raises, a first reply that did not parse
      leads to a third attempt, and otherwise the exception escapes after
      two with nothing shown. */
  lemma TwoFailuresRejected(world: nat -> AttemptIO, warningRaises: bool, image: Path, destination: Path, eventId: int)
    requires !RunAttempt(world(0)).Stored? && !RunAttempt(world(1)).Stored?
    ensures var c := ImageCall(world, warningRaises, image, destination, eventId);
      && (!warningRaises ==> c.attempts == 2 && !c.escaped && exists reason :: c.effects == [Warned(image, reason)])
      && (warningRaises ==> (c.attempts == 3 <==> RunAttempt(world(0)).Unparsed?))
      && (warningRaises && c.attempts == 2 ==> c.escaped && c.effects == [])
  {
    FailedTwice(RunAttempt(world(0)), RunAttempt(world(1)), RunAttempt(world(2)), warningRaises, image, destination, eventId);
  }

  /** The image is moved only once its receipt has been inserted. */
  lemma MoveFollowsInsert(world: nat -> AttemptIO, warningRaises: bool, image: Path, destination: Path, eventId: int, i: nat)
    requires i < |ImageCall(world, warningRaises, image, destination, eventId).effects|
    requires ImageCall(world, warningRaises, image, destination, eventId).effects[i].Moved?
    ensures i == 1 && ImageCall(world, warningRaises, image, destination, eventId).effects[0].Inserted?
  {
    OutcomeShapes(world, warningRaises, image, destination, eventId);
  }

  /** When the insert raises on every attempt, nothing is ever stored or
      moved. With the dialog shown, both attempts are made and the image is
      given up with one warning; with a dialog that raises, the exception
      escapes `process_image` and nothing at all is shown. */
  lemma InsertAlwaysRaises(world: nat -> AttemptIO, warningRaises: bool, image: Path, destination: Path, eventId: int)
    requires forall k :: world(k).insertRaises
    ensures var c := ImageCall(world, warningRaises, image, destination, eventId);
      && (!warningRaises ==> c.attempts == 2 && !c.escaped && exists reason :: c.effects == [Warned(image, reason)])
      && (warningRaises ==> c.escaped && c.effects == [])
  {
    assert world(0).insertRaises && world(1).insertRaises && world(2).insertRaises;
    FailedTwice(RunAttempt(world(0)), RunAttempt(world(1)), RunAttempt(world(2)), warningRaises, image, destination, eventId);
  }
}
