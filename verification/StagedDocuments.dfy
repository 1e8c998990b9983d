/** From the API to the worker: the document that is staged is the one that is processed,
    whatever happens to the table in between. */
module StagedDocuments {
  import opened Sequences
  import opened IngestJobs
  import opened LeaseProtocol
  import opened JobCoherence
  import opened SyncIngest
  import opened Paths

  /** The API queues a prepared document as row `j`: a new row for its tenant and source, or the
      row that they have. */
  predicate Queues(s: State, write: Step, j: JobId, doc: PreparedDocument) {
    match write
    case ApiCreate(id, tenant, source, _, key, _) => id == j && tenant == doc.tenantId && source == doc.sourceId && key == doc.rawKey
    case ApiReset(id, _, key, _) =>
      id == j && j in s.rows && s.rows[j].tenantId == doc.tenantId && s.rows[j].sourceId == doc.sourceId && key == doc.rawKey
    case _ => false
  }

  lemma QueuedRow(s: State, lease: Time, write: Step, j: JobId, doc: PreparedDocument)
    requires Legal(s, lease, write) && Queues(s, write, j, doc)
    ensures var rows := Next(s, lease, write).rows;
            j in rows && rows[j].tenantId == doc.tenantId && rows[j].sourceId == doc.sourceId && rows[j].rawKey == doc.rawKey
  {
  }

  /** For every document that the API prepares and queues, and after any interleaving of workers,
      and of the API on other rows: the claim that owns the row leads its worker to exactly the
      prepared tenant, source, key, staged path and output directory. */
  lemma ClaimFindsStagedDocument(localPath: string, isFile: bool, tenant: string, source: Option<string>, digest: string,
                                 s: State, lease: Time, write: Step, j: JobId, steps: seq<Step>, t: Token)
    requires PrepareDocument(localPath, isFile, tenant, source, digest).Ok?
    requires Fenced(s) && ClaimsMatch(s) && Legal(s, lease, write)
    requires Queues(s, write, j, PrepareDocument(localPath, isFile, tenant, source, digest).value)
    requires LegalRun(Next(s, lease, write), lease, steps) && ApiLeaves(steps, j)
    requires var s' := Run(Next(s, lease, write), lease, steps);
             t in s'.held && s'.held[t].claim.id == j && Passes(s'.rows, s'.held[t].claim)
    ensures var claim := Run(Next(s, lease, write), lease, steps).held[t].claim;
            PreparedForJob(claim.tenantId, claim.sourceId, claim.rawKey) == PrepareDocument(localPath, isFile, tenant, source, digest)
  {
    var doc := PrepareDocument(localPath, isFile, tenant, source, digest).value;
    var queued := Next(s, lease, write);
    var s' := Run(queued, lease, steps);
    QueuedRow(s, lease, write, j, doc);
    FencedStep(s, lease, write);
    FencedRun(queued, lease, steps);
    ClaimsMatchInStep(s, lease, write);
    ClaimsMatchInRun(queued, lease, steps);
    DocumentStays(queued, lease, steps, j);
    AttemptsCountHandOuts(queued, lease, steps, j);
    assert ClaimMatches(s'.held[t].claim, s'.rows[j], Current(s', t));
    WorkerFindsStagedPath(localPath, isFile, tenant, source, digest);
  }
}
