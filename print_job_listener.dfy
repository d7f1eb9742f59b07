/**
 * The listeners-validation before-commit listener: a dirty print job asking
 * for both sides must go to a printer that supports duplex printing.
 */
module PrintJobListener {
  import opened Wrappers

  datatype Printer = Printer(name: string, duplexSupport: Option<bool>)

  /** A managed entity as the listener sees it: a print job, or anything else. */
  datatype ManagedEntity =
    | PrintJob(dirty: bool, fileName: string, printer: Printer, printOnBothSides: Option<bool>)
    | OtherEntity(dirty: bool)

  /** The PrintJobValidationException, with the file and the printer it names. */
  datatype DuplexViolation = DuplexViolation(fileName: string, printerName: string)

  /** A dirty print job that the listener rejects. */
  predicate Violates(e: ManagedEntity) {
    && e.dirty
    && e.PrintJob?
    && (e.printOnBothSides.Some? && e.printOnBothSides.value)
    && (e.printer.duplexSupport.None? || !e.printer.duplexSupport.value)
  }

  /** `beforeCommit`: scan in order and throw on the first violating entity. */
  function BeforeCommit(entities: seq<ManagedEntity>): (r: Outcome<DuplexViolation>)
    ensures r.Pass? <==> forall k :: 0 <= k < |entities| ==> !Violates(entities[k])
    ensures r.Fail? ==>
              exists k :: (0 <= k < |entities| && Violates(entities[k]) &&
                           (forall j :: 0 <= j < k ==> !Violates(entities[j])) &&
                           r.error == DuplexViolation(entities[k].fileName, entities[k].printer.name))
  {
    if entities == [] then Pass
    else if Violates(entities[0]) then
      Fail(DuplexViolation(entities[0].fileName, entities[0].printer.name))
    else
      var r := BeforeCommit(entities[1..]);
      assert forall k :: 1 <= k < |entities| ==> entities[k] == entities[1..][k - 1];
      if r.Fail? then
        ghost var k :| 0 <= k < |entities[1..]| && Violates(entities[1..][k]) &&
                       (forall j :: 0 <= j < k ==> !Violates(entities[1..][j])) &&
                       r.error == DuplexViolation(entities[1..][k].fileName, entities[1..][k].printer.name);
        assert Violates(entities[k + 1]);
        r
      else
        r
  }

  /** A print job that is not dirty is never rejected, whatever its settings. */
  lemma CleanEntitiesPass(entities: seq<ManagedEntity>)
    requires forall k :: 0 <= k < |entities| ==> !entities[k].dirty
    ensures BeforeCommit(entities) == Pass
  {
  }

  /** A job not asking for both sides, or on a duplex printer, passes. */
  lemma NoDuplexRequestOrDuplexPrinterPasses(e: ManagedEntity)
    requires e.PrintJob?
    requires e.printOnBothSides != Some(true) || e.printer.duplexSupport == Some(true)
    ensures BeforeCommit([e]) == Pass
  {
  }

  /** A dirty job asking for both sides on a printer without duplex support is rejected. */
  lemma DuplexOnSimplexPrinterFails(fileName: string, printer: Printer, rest: seq<ManagedEntity>)
    requires printer.duplexSupport != Some(true)
    ensures BeforeCommit([PrintJob(true, fileName, printer, Some(true))] + rest) ==
              Fail(DuplexViolation(fileName, printer.name))
  {
  }

  /** Entities other than print jobs never lead to a rejection. */
  lemma OtherEntitiesPass(entities: seq<ManagedEntity>)
    requires forall k :: 0 <= k < |entities| ==> entities[k].OtherEntity?
    ensures BeforeCommit(entities) == Pass
  {
  }
}
