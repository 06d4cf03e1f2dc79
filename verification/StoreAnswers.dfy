/** What the answer of an append says, and what it leaves in the files, outcome by outcome. */
module StoreAnswers {
  import opened Prelude
  import opened Text
  import opened Receipts
  import opened Disk
  import opened Registry
  import opened Store
  import opened StoreInvariants
  import opened StoreCache
  import Dedupe

  /** The record as it is signed: linked to the head, with everything else in the linkage empty. */
  function ToSign(chain: Chain, r: Record): Record {
    r.(integrity := Integrity(chain.headHash, "", "", ""))
  }

  /** The record as it is stored: the signed one with what the signature adds. */
  function Stored(chain: Chain, r: Record, s: Seal): Record {
    r.(integrity := Integrity(chain.headHash, s.recordHash, s.signature, s.signingKeyID))
  }

  /** The record was signed, is valid and can be linked. */
  predicate Sealable(w: World, chain: Chain, r: Record) {
    && w.seal(ToSign(chain, r)).Some?
    && var stored := Stored(chain, r, w.seal(ToSign(chain, r)).value);
       w.schemaValid(stored) && w.linkable(chain, stored)
  }

  lemma AdmittedNew(w: World, f: Files, q: Request)
    requires Admit(w, f, q).New?
    ensures var chain := ChainOf(f);
            Sealable(w, chain, q.record) &&
                Admit(w, f, q).sealed == Stored(chain, q.record, w.seal(ToSign(chain, q.record)).value)
  {
    hide IsGaitLifecycle, Blank, ChainHasKey, Dedupe.Live;
  }

  /** Main result. An append that answers with success stores exactly one record, the signed one, at the
      end, and tells the new head, the new count and the record's id; a duplicate tells the old ones. */
  lemma SuccessMeans(w: World, f: Files, q: Request, f': Files, out: Outcome)
    requires AppendStep(w, f, q, f', out)
    ensures out.Appended? ==>
              var chain, r := ChainOf(f), q.record;
              && Sealable(w, chain, r)
              && var s := w.seal(ToSign(chain, r)).value;
                 && ChainOf(f') == Chain(chain.records + [Stored(chain, r, s)], s.recordHash)
                 && out == Appended(s.recordHash, |chain.records| + 1, r.recordID)
    ensures out.Deduped? ==>
              ChainOf(f') == ChainOf(f) && out == Deduped(ChainOf(f).headHash, |ChainOf(f).records|, q.record.recordID)
  {
    ChainCases(w, f, q, f', out);
    if Admit(w, f, q).New? { AdmittedNew(w, f, q); }
    hide Admit, AppendStep, Sealable;
    Told(w, f, q, f', out);
  }

  lemma Told(w: World, f: Files, q: Request, f': Files, out: Outcome)
    requires AppendStep(w, f, q, f', out)
    ensures out.Appended? ==>
              Admit(w, f, q).New? && var sealed := Admit(w, f, q).sealed;
              out == Appended(sealed.integrity.recordHash, |ChainOf(f).records| + 1, sealed.recordID)
    ensures out.Deduped? ==> out == Deduped(ChainOf(f).headHash, |ChainOf(f).records|, q.record.recordID)
  {
    hide Admit, RegisterSpec, MarkResult, Snapshot;
    var marked :| (Admit(w, f, q).New? ==> MarkResult(w, f, q, marked)) && (f', out) == AppendSpec(w, f, q, marked);
  }

  /** An appended record's key is in the index, unless the index is full of entries as recent. */
  lemma AppendedIsMarked(w: World, f: Files, q: Request, f': Files, out: Outcome)
    requires AppendStep(w, f, q, f', out) && out.Appended? && q.dedupeKey != "" && KeyHeld(w, f, q)
    ensures q.dedupeKey in IndexOf(f') && IndexOf(f')[q.dedupeKey].expiresAt == q.now + Ttl(w)
  {
    hide *;
    Told(w, f, q, f', out);
    var marked := StepMarks(w, f, q, f', out);
    AppendedIndex(w, f, q, marked);
    KeySurvives(w, f, q, marked);
  }

  lemma AppendedIndex(w: World, f: Files, q: Request, marked: Dedupe.Entries)
    requires AppendSpec(w, f, q, marked).1.Appended?
    ensures IndexOf(AppendSpec(w, f, q, marked).0) == marked
  {
    hide Admit, RegisterSpec, Snapshot;
  }

  // ----- Refusals -----

  /** What each refusal says. */
  ghost predicate Explains(w: World, f: Files, q: Request, e: StoreError) {
    match e
    case ReadOnly => w.readOnly
    case RecordIdRequired => Trim(q.record.recordID) == ""
    case UseGaitBoundary => IsGaitLifecycle(q.record) && !q.allowGait
    case NotGaitLifecycle => false
    case BadReceipt(_) => false
    case ChainUnreadable => f.chain.Garbled?
    case IndexUnreadable => f.index.Garbled?
    case MissingFromChain => q.register && forall r :: r in ChainOf(f).records ==> r.recordID != q.record.recordID
    case RegistrationFailed => q.register
    case SignFailed => w.seal(ToSign(ChainOf(f), q.record)).None?
    case SchemaInvalid =>
      && w.seal(ToSign(ChainOf(f), q.record)).Some?
      && !w.schemaValid(Stored(ChainOf(f), q.record, w.seal(ToSign(ChainOf(f), q.record)).value))
    case LinkFailed =>
      && w.seal(ToSign(ChainOf(f), q.record)).Some?
      && !w.linkable(ChainOf(f), Stored(ChainOf(f), q.record, w.seal(ToSign(ChainOf(f), q.record)).value))
    case ChainWriteFailed => q.fates.chain.Fails?
    case IndexWriteFailed => q.fates.chain.Lands? && q.fates.index.Fails?
  }

  /** The checks before any lookup let the request through. */
  predicate Passes(w: World, f: Files, q: Request) {
    && !w.readOnly && Trim(q.record.recordID) != "" && (IsGaitLifecycle(q.record) ==> q.allowGait)
    && !f.chain.Garbled? && !f.index.Garbled?
  }

  lemma TurnedMeans(w: World, f: Files, q: Request)
    ensures Admit(w, f, q).Turned? ==> Explains(w, f, q, Admit(w, f, q).error)
    ensures !Passes(w, f, q) ==> Admit(w, f, q).Turned?
    ensures Passes(w, f, q) && Admit(w, f, q).Turned? ==> !Sealable(w, ChainOf(f), q.record)
    ensures Admit(w, f, q).New? ==> Sealable(w, ChainOf(f), q.record)
  {
    hide IsGaitLifecycle, Trim, ChainHasKey, Dedupe.Live;
  }

  /** Main result. A refusal always says what is so, and nothing that fails the checks gets through. */
  lemma RefusalMeans(w: World, f: Files, q: Request, f': Files, out: Outcome)
    requires AppendStep(w, f, q, f', out)
    ensures out.Refused? ==> Explains(w, f, q, out.error)
    ensures !Passes(w, f, q) ==> out.Refused? && f' == f
  {
    hide *;
    TurnedMeans(w, f, q);
    Refusals(w, f, q, f', out);
    SomeExplanations(w, f, q);
  }

  lemma SomeExplanations(w: World, f: Files, q: Request)
    ensures q.fates.chain.Fails? ==> Explains(w, f, q, ChainWriteFailed)
    ensures q.fates.chain.Lands? && q.fates.index.Fails? ==> Explains(w, f, q, IndexWriteFailed)
    ensures q.register ==> Explains(w, f, q, RegistrationFailed)
    ensures q.register && (forall r :: r in ChainOf(f).records ==> r.recordID != q.record.recordID) ==>
            Explains(w, f, q, MissingFromChain)
  {
  }

  lemma Refusals(w: World, f: Files, q: Request, f': Files, out: Outcome)
    requires AppendStep(w, f, q, f', out)
    ensures Admit(w, f, q).Turned? ==> f' == f && out == Refused(Admit(w, f, q).error)
    ensures Admit(w, f, q).Known? && out.Refused? ==>
              q.register && (out.error == RegistrationFailed || (out.error == MissingFromChain &&
                forall r :: r in ChainOf(f).records ==> r.recordID != q.record.recordID))
    ensures Admit(w, f, q).New? && out.Refused? ==>
              || (out.error == ChainWriteFailed && q.fates.chain.Fails?)
              || (out.error == IndexWriteFailed && q.fates.chain.Lands? && q.fates.index.Fails?)
              || (out.error == RegistrationFailed && q.register)
  {
    hide Admit, RegisterSpec, MarkResult, Snapshot;
    var marked :| (Admit(w, f, q).New? ==> MarkResult(w, f, q, marked)) && (f', out) == AppendSpec(w, f, q, marked);
  }

  // ----- Rolling back -----

  /** Main result. After a failure behind the chain write, each file is restored as its own restoring
      write ends, and neither restoring write depends on the other having worked. */
  lemma RollbackMeans(w: World, f: Files, q: Request, f': Files, out: Outcome)
    requires AppendStep(w, f, q, f', out) && out.Refused? && Admit(w, f, q).New? && out.error != ChainWriteFailed
    ensures ChainOf(f') == if q.fates.undoChain.Lands? then ChainOf(f)
            else Chain(ChainOf(f).records + [Admit(w, f, q).sealed], Admit(w, f, q).sealed.integrity.recordHash)
    ensures q.fates.undoIndex.Lands? ==>
              IndexOf(f') == if q.dedupeKey == "" then IndexOf(f) else Dedupe.Purged(IndexOf(f), q.now)
    ensures f'.registry == f.registry
  {
    hide Admit, MarkResult, VerifiedEntry, Dedupe.Purged;
    var marked :| (Admit(w, f, q).New? ==> MarkResult(w, f, q, marked)) && (f', out) == AppendSpec(w, f, q, marked);
  }
}
