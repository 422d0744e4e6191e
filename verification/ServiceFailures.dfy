/** Which failure the proof service reports, over its answers alone, `backend/src/attestcoin/attestcoin-service.ts`. */
module ServiceFailures {
  import opened Digests
  import opened Evaluator
  import opened Verifier
  import opened ProofService

  /** The block the source node gives the transaction, if it has it mined. */
  function NodeBlock(o: Oracle): Option<int> {
    if o.transactionBlock.Some? && o.transactionBlock.value.Some? then o.transactionBlock.value.value else None
  }

  function ReceiptBlock(o: Oracle): Option<int> {
    if o.receipt.Some? && o.receipt.value.Some? then o.receipt.value.value.blockNumber else None
  }

  /*** The checks in the order they are made ***/

  function TransactionChecks(r: Request, o: Oracle, configured: nat): seq<Check> {
    [Check(r.chainKey != configured, UnsupportedSourceChain),
     Check(o.sourceChain.None? || o.transactionBlock.None?, ProviderFailure),
     Check(o.transactionBlock == Some(None), SourceTransactionNotFound),
     Check(NodeBlock(o).None?, SourceTransactionNotMined)]
  }

  function BlockChecks(o: Oracle): seq<Check> {
    [Check(o.receipt.None?, ProviderFailure),
     Check(ReceiptBlock(o).None?, SourceTransactionNotMined),
     Check(ReceiptBlock(o) != NodeBlock(o), InvalidProof),
     Check(o.block.None?, ProviderFailure),
     Check(o.block != Some(ReceiptBlock(o)), SourceTransactionNotMined),
     Check(o.receipt.Some? && o.receipt.value.Some? && o.receipt.value.value.status != Some(1), PolicyMismatch)]
  }

  ghost function NetworkChecks(r: Request, o: Oracle): seq<Check> {
    [Check(o.creditcoinChain.None?, ProviderFailure),
     Check(o.creditcoinChain != Some(CREDITCOIN_CHAIN), ConfigurationMissing),
     Check(o.supported.None?, ProviderFailure),
     Check(o.sourceChain.Some? && o.supported.Some?
           && !FirstEntryIs(o.supported.value, r.chainKey, o.sourceChain.value), UnsupportedSourceChain)]
  }

  function AttestationChecks(o: Oracle): seq<Check> {
    [Check(o.latest.None?, ProviderFailure),
     Check(ReceiptBlock(o).Some? && !AttestedHeight(o, ReceiptBlock(o).value), SourceBlockNotAttested),
     Check(o.builderWaits && !o.builderReady, ProofBuilderUnavailable)]
  }

  function BuilderChecks(o: Oracle): seq<Check> {
    var refused := o.proof.Some? && o.proof.value.Refused? && o.proof.value.status.Some?;
    [Check(o.proof.None?, ProofBuilderUnavailable),
     Check(refused && o.proof.value.status.value == 404, ProofNotFound),
     Check(refused && o.proof.value.status.value >= 500, ProofBuilderUnavailable),
     Check(o.proof.Some? && !o.proof.value.Proof?, InvalidProof)]
  }

  function MetadataChecks(r: Request, o: Oracle): seq<Check> {
    if o.proof.None? || !o.proof.value.Proof? then []
    else
      var p := o.proof.value.data;
      [Check(p.chainKey != r.chainKey, UnsupportedSourceChain),
       Check(Some(p.headerNumber) != ReceiptBlock(o), InvalidProof),
       Check(p.hash != r.transactionHash, TransactionHashMismatch),
       Check(o.index != Some(p.index), InvalidProof)]
  }

  function ProverChecks(r: Request, o: Oracle): seq<Check> {
    if o.proof.None? || !o.proof.value.Proof? then []
    else
      var decoded := o.decode(o.proof.value.data.bytes);
      [Check(o.accepted != Some(true), CreditcoinVerificationFailed),
       Check(decoded.None?, MissingTransactionContext),
       Check(decoded.Some? && decoded.value.hash != r.transactionHash, TransactionHashMismatch),
       Check(decoded.Some? && decoded.value.receiptStatus != 1, InvalidProof)]
  }

  ghost function ServiceChecks(r: Request, o: Oracle, configured: nat): seq<Check> {
    TransactionChecks(r, o, configured) + (BlockChecks(o) + (NetworkChecks(r, o) + (AttestationChecks(o)
      + (BuilderChecks(o) + (MetadataChecks(r, o) + ProverChecks(r, o))))))
  }

  /*** Stage by stage ***/

  lemma TransactionFails(r: Request, o: Oracle, configured: nat)
    ensures match FirstBroken(TransactionChecks(r, o, configured))
            case Some(code) => Verdict(r, o, configured) == Failed(code)
            case None => r.chainKey == configured && o.sourceChain.Some? && NodeBlock(o).Some?
  {
    var cs := TransactionChecks(r, o, configured);
    FirstOfFour(cs);
  }

  lemma BlockFails(r: Request, o: Oracle)
    requires o.sourceChain.Some? && NodeBlock(o).Some?
    ensures match FirstBroken(BlockChecks(o))
            case Some(code) => SourceBlock(r, o) == Failed(code)
            case None => SourceBlock(r, o).Ok? && ReceiptBlock(o) == Some(SourceBlock(r, o).value)
  {
    var cs := BlockChecks(o);
    FirstOfFour(cs);
    FirstOfFour(cs[4..]);
  }

  lemma NetworkFails(r: Request, o: Oracle)
    requires o.sourceChain.Some?
    ensures FirstBroken(NetworkChecks(r, o)) == NetworkFailure(r, o)
  {
    var cs := NetworkChecks(r, o);
    FirstOfFour(cs);
    if o.supported.Some? { ChainOfIsFirst(o.supported.value, r.chainKey, o.sourceChain.value); }
  }

  lemma AttestationFails(o: Oracle)
    requires ReceiptBlock(o).Some?
    ensures FirstBroken(AttestationChecks(o)) == AttestationFailure(o, ReceiptBlock(o).value)
  {
    var cs := AttestationChecks(o);
    FirstOfFour(cs);
  }

  lemma BuilderFails(r: Request, o: Oracle, block: int)
    ensures FirstBroken(BuilderChecks(o)).Some? ==> ProofFailure(r, o, block) == FirstBroken(BuilderChecks(o))
    ensures FirstBroken(BuilderChecks(o)) == None ==> o.proof.Some? && o.proof.value.Proof?
  {
    var cs := BuilderChecks(o);
    FirstOfFour(cs);
  }

  lemma MetadataFails(r: Request, o: Oracle)
    requires ReceiptBlock(o).Some? && o.proof.Some? && o.proof.value.Proof?
    ensures FirstBroken(MetadataChecks(r, o)) == ProofFailure(r, o, ReceiptBlock(o).value)
  {
    var cs := MetadataChecks(r, o);
    FirstOfFour(cs);
  }

  lemma ProverFails(r: Request, o: Oracle)
    requires o.proof.Some? && o.proof.value.Proof?
    ensures match FirstBroken(ProverChecks(r, o))
            case Some(code) => Proven(r, o, o.proof.value.data) == Failed(code)
            case None => Proven(r, o, o.proof.value.data).Ok?
  {
    var cs := ProverChecks(r, o);
    FirstOfFour(cs);
  }

  /**
   * Every failure of the proof service carries the code of the first broken check of the list, which is over the
   * answers alone; and there is no failure exactly when none is broken.
   */
  lemma ServiceFailsFirst(r: Request, o: Oracle, configured: nat)
    ensures match FirstBroken(ServiceChecks(r, o, configured))
            case Some(code) => Verdict(r, o, configured) == Failed(code)
            case None => Verdict(r, o, configured).Ok?
  {
    var proving := BuilderChecks(o) + (MetadataChecks(r, o) + ProverChecks(r, o));
    var attesting := AttestationChecks(o) + proving;
    var networking := NetworkChecks(r, o) + attesting;
    FirstOfTwo(TransactionChecks(r, o, configured), BlockChecks(o) + networking);
    FirstOfTwo(BlockChecks(o), networking);
    FirstOfTwo(NetworkChecks(r, o), attesting);
    FirstOfTwo(AttestationChecks(o), proving);
    FirstOfTwo(BuilderChecks(o), MetadataChecks(r, o) + ProverChecks(r, o));
    FirstOfTwo(MetadataChecks(r, o), ProverChecks(r, o));
    TransactionFails(r, o, configured);
    if FirstBroken(TransactionChecks(r, o, configured)).None? {
      BlockFails(r, o);
      NetworkFails(r, o);
      if SourceBlock(r, o).Ok? { ProvingFails(r, o); }
    }
  }

  lemma ProvingFails(r: Request, o: Oracle)
    requires ReceiptBlock(o).Some?
    ensures var block := ReceiptBlock(o).value;
            && FirstBroken(AttestationChecks(o)) == AttestationFailure(o, block)
            && (FirstBroken(BuilderChecks(o)).Some? ==> ProofFailure(r, o, block) == FirstBroken(BuilderChecks(o)))
            && (FirstBroken(BuilderChecks(o)).None? ==>
                  && o.proof.Some? && o.proof.value.Proof?
                  && FirstBroken(MetadataChecks(r, o)) == ProofFailure(r, o, block)
                  && match FirstBroken(ProverChecks(r, o))
                     case Some(code) => Proven(r, o, o.proof.value.data) == Failed(code)
                     case None => Proven(r, o, o.proof.value.data).Ok?)
  {
    AttestationFails(o);
    BuilderFails(r, o, ReceiptBlock(o).value);
    if FirstBroken(BuilderChecks(o)).None? {
      MetadataFails(r, o);
      ProverFails(r, o);
    }
  }
}
