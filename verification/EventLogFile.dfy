/** The event log file with a cap on its size. */
module EventLogFile {
  import opened Basics

  const SIZE_COUNT: nat := 0x1_0000_0000_0000_0000
  const MAX_REASONABLE_FILE_SIZE: nat := (SIZE_COUNT - 1) / 2
  const UNLIMITED: nat := 0

  datatype File = File(maxSize: nat, written: nat, open: bool, contents: string)

  /** An output, and how many of its characters the operating system takes. */
  datatype Attempt = Attempt(output: string, taken: nat) {
    predicate Possible() {
      taken <= |output| < MAX_REASONABLE_FILE_SIZE
    }
  }

  /** Addition of size_t values. */
  function Plus(a: nat, b: nat): nat {
    (a + b) % SIZE_COUNT
  }

  function Create(maxSize: nat, open: bool): Outcome<File> {
    if maxSize <= MAX_REASONABLE_FILE_SIZE then Ok(File(maxSize, 0, open, "")) else CheckFailed
  }

  /** Writing to an inactive file, or too much at once, trips a check. */
  function WriteTo(f: File, a: Attempt): Outcome<(File, bool)>
    requires a.taken <= |a.output|
  {
    if !f.open || |a.output| >= MAX_REASONABLE_FILE_SIZE then CheckFailed
    else if f.maxSize == UNLIMITED || Plus(f.written, |a.output|) <= f.maxSize then
      var f' := f.(contents := f.contents + a.output[..a.taken]);
      if a.taken == |a.output| then Ok((f'.(written := Plus(f.written, |a.output|)), true))
      else Ok((f'.(open := false), false))
    else Ok((f.(open := false), false))
  }

  /** Callers ask IsActive first, so nothing is attempted on an inactive file. */
  function WriteAll(f: File, attempts: seq<Attempt>): File
    requires forall i :: 0 <= i < |attempts| ==> attempts[i].Possible()
    decreases attempts
  {
    if attempts == [] || !f.open then f
    else
      assert attempts[0].Possible();
      WriteAll(WriteTo(f, attempts[0]).value.0, attempts[1..])
  }

  // ---------------------------------------------------------------- the reference

  function Joined(attempts: seq<Attempt>): string {
    if attempts == [] then "" else attempts[0].output + Joined(attempts[1..])
  }

  /** How many attempts, from the first on, fit the cap and are taken whole. */
  function Accepted(maxSize: nat, used: nat, attempts: seq<Attempt>): (n: nat)
    ensures n <= |attempts|
    decreases attempts
  {
    if attempts != [] && used + |attempts[0].output| <= maxSize && attempts[0].taken == |attempts[0].output| then
      1 + Accepted(maxSize, used + |attempts[0].output|, attempts[1..])
    else 0
  }

  /** What a refused attempt leaves behind: nothing if it did not fit, otherwise the part that was taken. */
  function Remnant(maxSize: nat, used: nat, a: Attempt): string
    requires a.taken <= |a.output|
  {
    if used + |a.output| <= maxSize then a.output[..a.taken] else ""
  }

  /** The sum compared with the cap is that of natural numbers. */
  lemma SumDoesNotOverflow(f: File, a: Attempt)
    requires f.written <= f.maxSize <= MAX_REASONABLE_FILE_SIZE && a.Possible()
    ensures Plus(f.written, |a.output|) == f.written + |a.output| < SIZE_COUNT
  {
  }

  predicate Fits(f: File, a: Attempt) {
    f.written + |a.output| <= f.maxSize && a.taken == |a.output|
  }

  /** One attempt on an active limited file. */
  lemma WriteLimited(f: File, a: Attempt)
    requires f.open && UNLIMITED < f.maxSize <= MAX_REASONABLE_FILE_SIZE && f.written <= f.maxSize && a.Possible()
    ensures WriteTo(f, a) ==
            if Fits(f, a) then Ok((f.(written := f.written + |a.output|, contents := f.contents + a.output), true))
            else Ok((f.(open := false, contents := f.contents + Remnant(f.maxSize, f.written, a)), false))
  {
    SumDoesNotOverflow(f, a);
    assert a.output[..|a.output|] == a.output;
    assert f.contents + "" == f.contents;
  }

  lemma JoinedOfOneMore(attempts: seq<Attempt>, m: nat)
    requires m < |attempts|
    ensures Joined(attempts[..m + 1]) == attempts[0].output + Joined(attempts[1..][..m])
  {
    assert attempts[..m + 1][1..] == attempts[1..][..m];
  }

  /** What should be in the file after n attempts were accepted. */
  function Expected(f: File, attempts: seq<Attempt>, n: nat): string
    requires n < |attempts| ==> attempts[n].Possible()
    requires n <= |attempts|
  {
    var kept := Joined(attempts[..n]);
    f.contents + kept + if n == |attempts| then "" else Remnant(f.maxSize, f.written + |kept|, attempts[n])
  }

  /** f' is f after n of the attempts were accepted and the next one, if any, refused. */
  predicate AsExpected(f: File, attempts: seq<Attempt>, n: nat, f': File)
    requires n < |attempts| ==> attempts[n].Possible()
    requires n <= |attempts|
  {
    && f'.written == f.written + |Joined(attempts[..n])| <= f.maxSize == f'.maxSize
    && (f'.open <==> n == |attempts|)
    && f'.contents == Expected(f, attempts, n)
  }

  /** A run of a limited file: the accepted outputs are a first stretch of the attempts, appear whole and in order, add
      up to the count, and stay under the cap; the file is active exactly if nothing was refused, and the first refusal
      is the last thing that happens to it. */
  lemma {:induction false} CappedLog(f: File, attempts: seq<Attempt>)
    requires forall i :: 0 <= i < |attempts| ==> attempts[i].Possible()
    requires f.open && UNLIMITED < f.maxSize <= MAX_REASONABLE_FILE_SIZE && f.written <= f.maxSize
    ensures AsExpected(f, attempts, Accepted(f.maxSize, f.written, attempts), WriteAll(f, attempts))
    decreases attempts
  {
    if attempts == [] {
    } else {
      var a, rest := attempts[0], attempts[1..];
      assert a.Possible();
      WriteLimited(f, a);
      if Fits(f, a) {
        var f1 := WriteTo(f, a).value.0;
        CappedLog(f1, rest);
        AsExpectedContinues(f, attempts, Accepted(f1.maxSize, f1.written, rest), WriteAll(f1, rest));
      } else {
        Refused(f, attempts);
      }
    }
  }

  lemma AsExpectedContinues(f: File, attempts: seq<Attempt>, m: nat, f': File)
    requires m < |attempts| && (m + 1 < |attempts| ==> attempts[m + 1].Possible())
    requires AsExpected(f.(written := f.written + |attempts[0].output|, contents := f.contents + attempts[0].output),
                        attempts[1..], m, f')
    ensures AsExpected(f, attempts, m + 1, f')
  {
    JoinedOfOneMore(attempts, m);
    ExpectedContinues(f, attempts, m);
  }

  lemma Refused(f: File, attempts: seq<Attempt>)
    requires forall i :: 0 <= i < |attempts| ==> attempts[i].Possible()
    requires attempts != [] && f.open && !Fits(f, attempts[0])
    requires UNLIMITED < f.maxSize <= MAX_REASONABLE_FILE_SIZE && f.written <= f.maxSize
    ensures Accepted(f.maxSize, f.written, attempts) == 0 && AsExpected(f, attempts, 0, WriteAll(f, attempts))
  {
    assert attempts[0].Possible();
    WriteLimited(f, attempts[0]);
    assert f.contents + "" == f.contents;
  }

  lemma ExpectedContinues(f: File, attempts: seq<Attempt>, m: nat)
    requires m < |attempts| && (m + 1 < |attempts| ==> attempts[m + 1].Possible())
    ensures var a := attempts[0];
            Expected(f.(written := f.written + |a.output|, contents := f.contents + a.output), attempts[1..], m) ==
            Expected(f, attempts, m + 1)
  {
    var a, rest := attempts[0], attempts[1..];
    JoinedOfOneMore(attempts, m);
    var kept := Joined(rest[..m]);
    assert (f.contents + a.output) + kept == f.contents + (a.output + kept);
  }

  // ---------------------------------------------------------------- a file without a cap

  /** How many attempts, from the first on, are taken whole. */
  function TakenWhole(attempts: seq<Attempt>): (n: nat)
    ensures n <= |attempts|
  {
    if attempts != [] && attempts[0].taken == |attempts[0].output| then 1 + TakenWhole(attempts[1..]) else 0
  }

  /** f' is f after n of the attempts were stored and the next one, if any, was not taken whole. */
  predicate Stored(f: File, attempts: seq<Attempt>, n: nat, f': File)
    requires n < |attempts| ==> attempts[n].Possible()
    requires n <= |attempts|
  {
    && f'.contents == f.contents + Joined(attempts[..n]) +
                      (if n == |attempts| then "" else attempts[n].output[..attempts[n].taken])
    && (f'.open <==> n == |attempts|)
    && f'.maxSize == f.maxSize && f'.written == (f.written + |Joined(attempts[..n])|) % SIZE_COUNT
  }

  /** A cap of 0 is none: every output the operating system takes is stored whole and in order, nothing is refused for
      its size, and only the count wraps around. */
  lemma {:induction false} UnlimitedLog(f: File, attempts: seq<Attempt>)
    requires forall i :: 0 <= i < |attempts| ==> attempts[i].Possible()
    requires f.open && f.maxSize == 0 && f.written < SIZE_COUNT
    ensures Stored(f, attempts, TakenWhole(attempts), WriteAll(f, attempts))
    decreases attempts
  {
    if attempts == [] {
      assert f.contents + "" + "" == f.contents;
    } else {
      var a, rest := attempts[0], attempts[1..];
      assert a.Possible();
      assert a.output[..|a.output|] == a.output;
      var f1 := WriteTo(f, a).value.0;
      if a.taken == |a.output| {
        UnlimitedLog(f1, rest);
        StoredContinues(f, attempts, TakenWhole(rest), WriteAll(f1, rest));
      } else {
        assert attempts[..0] == [];
        assert f.contents + "" == f.contents;
      }
    }
  }

  lemma StoredContinues(f: File, attempts: seq<Attempt>, m: nat, f': File)
    requires m < |attempts| && (m + 1 < |attempts| ==> attempts[m + 1].Possible())
    requires Stored(f.(written := Plus(f.written, |attempts[0].output|), contents := f.contents + attempts[0].output),
                    attempts[1..], m, f')
    ensures Stored(f, attempts, m + 1, f')
  {
    JoinedOfOneMore(attempts, m);
    var kept := Joined(attempts[1..][..m]);
    assert f.contents + attempts[0].output + kept == f.contents + (attempts[0].output + kept);
    WrapsOnce(f.written, |attempts[0].output|, |kept|);
  }

  lemma WrapsOnce(a: nat, b: nat, c: nat)
    ensures (Plus(a, b) + c) % SIZE_COUNT == (a + (b + c)) % SIZE_COUNT
  {
  }

  // ---------------------------------------------------------------- from creation on

  /** How many of the attempts a new file stores. */
  function StoredBy(maxSize: nat, attempts: seq<Attempt>): (n: nat)
    ensures n <= |attempts|
  {
    if maxSize == UNLIMITED then TakenWhole(attempts) else Accepted(maxSize, 0, attempts)
  }

  lemma {:induction false} NewLog(f: File, attempts: seq<Attempt>)
    requires forall i :: 0 <= i < |attempts| ==> attempts[i].Possible()
    requires f == File(f.maxSize, 0, true, "") && f.maxSize <= MAX_REASONABLE_FILE_SIZE
    ensures var f', n := WriteAll(f, attempts), StoredBy(f.maxSize, attempts);
            && (f'.open <==> n == |attempts|)
            && Joined(attempts[..n]) <= f'.contents
            && (n == |attempts| ==> f'.contents == Joined(attempts))
  {
    var n := StoredBy(f.maxSize, attempts);
    var kept := Joined(attempts[..n]);
    assert "" + kept == kept && kept + "" == kept;
    assert n == |attempts| ==> attempts[..n] == attempts;
    if f.maxSize == 0 {
      UnlimitedLog(f, attempts);
    } else {
      CappedLog(f, attempts);
    }
  }

  /** A log from its creation on: which caps are refused, what the file holds after any run, and exactly when the next
      write trips a check: after a refusal, or when it is half the range of size_t or longer. */
  lemma {:induction false} LogFromCreation(maxSize: nat, attempts: seq<Attempt>, a: Attempt)
    requires forall i :: 0 <= i < |attempts| ==> attempts[i].Possible()
    requires a.taken <= |a.output|
    ensures Create(maxSize, true).CheckFailed? <==> maxSize > 0x7FFF_FFFF_FFFF_FFFF
    ensures Create(maxSize, true).Ok? ==>
              var f, n := WriteAll(Create(maxSize, true).value, attempts), StoredBy(maxSize, attempts);
              && Joined(attempts[..n]) <= f.contents
              && (n == |attempts| ==> f.contents == Joined(attempts))
              && (WriteTo(f, a).CheckFailed? <==> n < |attempts| || |a.output| >= 0x7FFF_FFFF_FFFF_FFFF)
  {
    if maxSize <= MAX_REASONABLE_FILE_SIZE {
      NewLog(File(maxSize, 0, true, ""), attempts);
    }
  }

  // ---------------------------------------------------------------- the file as an object

  class RtcEventLogOutputFile {
    const maxSizeBytes: nat
    var writtenBytes: nat
    var open: bool
    var contents: string

    function Value(): File
      reads this
    {
      File(maxSizeBytes, writtenBytes, open, contents)
    }

    constructor (maxSizeBytes: nat, open: bool)
      requires maxSizeBytes <= MAX_REASONABLE_FILE_SIZE
      ensures Create(maxSizeBytes, open) == Ok(Value())
    {
      this.maxSizeBytes, writtenBytes, this.open, contents := maxSizeBytes, 0, open, "";
    }

    method IsActive() returns (active: bool)
      ensures active == open
    {
      active := open;
    }

    method Write(output: string, taken: nat) returns (ok: bool)
      requires open && taken <= |output| < MAX_REASONABLE_FILE_SIZE
      modifies this
      ensures WriteTo(old(Value()), Attempt(output, taken)) == Ok((Value(), ok))
    {
      if maxSizeBytes == UNLIMITED || Plus(writtenBytes, |output|) <= maxSizeBytes {
        contents := contents + output[..taken];
        if taken == |output| {
          writtenBytes := Plus(writtenBytes, |output|);
          return true;
        }
      }
      open := false;
      ok := false;
    }
  }
}
