/**
 * Properties of runs of the stream reader of src/dicm.c: what repeated
 * calls of dicm_sreader_next do to a whole input, as written and corrected.
 */
module DicmReaderRuns {
  import opened Io
  import opened Iteration
  import opened DicmReader

  /** Once kEndInstance is reached, further calls change nothing. */
  lemma RunAbsorbing(s: Snapshot, rest: seq<byte>, n: nat, rule: Rule)
    requires s.state == EndInstance
    ensures Run(s, rest, n, rule) == s
  {
    var inv := (c: Config) => c.snap == s;
    forall c | inv(c) ensures inv(Stepper(rule)(c)) {
      EndInstanceAbsorbing(c.snap, c.rest, rule);
    }
    Invariant(Stepper(rule), inv, Config(s, rest), n);
  }

  /** As written, over a read back-end that returns the count it read,
   *  dicm_sreader_hasnext stays true however many times next is called, from
   *  any state but kEndInstance and on any input (the empty one included):
   *  the reader never finishes. */
  lemma AsWrittenHasNextForever(s: Snapshot, rest: seq<byte>, n: nat)
    requires s.state != EndInstance
    ensures Run(s, rest, n, AsWritten(CountingRead)).state != EndInstance
  {
    var f := Stepper(AsWritten(CountingRead));
    var inv := (c: Config) => c.snap.state != EndInstance;
    forall c | inv(c) ensures inv(f(c)) {
      AsWrittenNeverEnds(c.snap, c.rest);
    }
    Invariant(f, inv, Config(s, rest), n);
  }

  /** With the corrected condition, and as written over the back-end that
   *  returns (size_t)-1 at the end of the file, every data set is read to its
   *  end: each kDataElement step either ends or consumes at least 6 bytes,
   *  so |rest| + 1 steps always reach kEndInstance. */
  lemma CorrectedTerminates(s: Snapshot, rest: seq<byte>, n: nat, rule: Rule)
    requires EndsAtEndOfInput(rule)
    requires s.state == DataElement && n > |rest|
    ensures Run(s, rest, n, rule).state == EndInstance
  {
    var f := Stepper(rule);
    var inv := (c: Config) => c.snap.state in {DataElement, EndInstance};
    var done := (c: Config) => c.snap.state == EndInstance;
    var measure := (c: Config) => |c.rest|;
    forall c | inv(c) ensures inv(f(c)) && (done(c) ==> done(f(c))) && (!done(c) ==> done(f(c)) || measure(f(c)) < measure(c)) {
      if done(c) {
        EndInstanceAbsorbing(c.snap, c.rest, rule);
      } else {
        DataElementStep(c.snap, c.rest, rule);
      }
    }
    Reaches(f, inv, done, measure, Config(s, rest), n);
  }
}
