/** Log normalisation: every console chunk is split into lines, each line is
    trimmed, blank lines are dropped and the rest are lower-cased into one
    set. */
module LogLines {
  import opened Strings
  import opened Types
  import opened Seqs

  /** What a normalised log line looks like. */
  predicate IsLogLine(l: string) {
    l != "" && IsTrimmed(l) && IsLowerCase(l)
  }

  /** A line as it enters the set. */
  function NormalizeLine(line: string): string {
    ToLower(Trim(line))
  }

  /** A non-blank line normalises to a well-formed log line. */
  lemma NormalizeLineWellFormed(line: string)
    requires Trim(line) != ""
    ensures IsLogLine(NormalizeLine(line))
  {
    TrimSpec(line);
    ToLowerKeepsTrimmed(Trim(line));
  }

  /** The line one raw line contributes: nothing when it is blank, else
      its normalised form. */
  function LineOf(p: string): set<string> {
    if Trim(p) != "" then {NormalizeLine(p)} else {}
  }

  /** The lines that the raw lines `parts` contribute: each non-blank one,
      normalised. */
  function PartsLines(parts: seq<string>): set<string> {
    UnionMap(parts, LineOf)
  }

  /** The lines one console chunk contributes. */
  function ChunkLines(chunk: string): set<string> {
    PartsLines(Split(chunk, '\n'))
  }

  /** A line comes from the raw lines exactly when some non-blank raw line
      normalises to it. */
  lemma PartsLinesMember(parts: seq<string>, l: string)
    ensures l in PartsLines(parts) <==> exists k :: 0 <= k < |parts| && Trim(parts[k]) != "" && l == NormalizeLine(parts[k])
  {
    UnionMapMember(parts, LineOf, l);
  }

  /** The chunks of one attempt, stdout first. */
  function Chunks(a: RunAttempt): seq<string> {
    a.stdout + a.stderr
  }

  /** The normalised log-line set of one attempt. */
  function AttemptLines(a: RunAttempt): set<string> {
    UnionMap(Chunks(a), ChunkLines)
  }

  /** The normalised log-line set of several attempts. */
  function UniqueLogLines(attempts: seq<RunAttempt>): (r: set<string>)
    ensures forall i :: 0 <= i < |attempts| ==> AttemptLines(attempts[i]) <= r
  {
    forall i, l | 0 <= i < |attempts| && l in AttemptLines(attempts[i])
      ensures l in UnionMap(attempts, AttemptLines)
    {
      UnionMapMember(attempts, AttemptLines, l);
    }
    UnionMap(attempts, AttemptLines)
  }

  /** The set for several attempts is the union of the per-attempt sets. */
  lemma LogLinesMember(attempts: seq<RunAttempt>, l: string)
    ensures l in UniqueLogLines(attempts) <==> exists i :: 0 <= i < |attempts| && l in AttemptLines(attempts[i])
  {
    UnionMapMember(attempts, AttemptLines, l);
  }

  /** Normalising two groups of attempts separately and uniting the results
      is the same as normalising them together. */
  lemma LogLinesAppend(a: seq<RunAttempt>, b: seq<RunAttempt>)
    ensures UniqueLogLines(a + b) == UniqueLogLines(a) + UniqueLogLines(b)
  {
    UnionMapAppend(a, b, AttemptLines);
  }

  /** The set of a single attempt is that attempt's own set. */
  lemma LogLinesSingle(a: RunAttempt)
    ensures UniqueLogLines([a]) == AttemptLines(a)
  {
    assert [a][..0] == [];
    assert UnionMap([a], AttemptLines) == UnionMap([], AttemptLines) + AttemptLines(a);
  }

  /** Every normalised line is non-empty, trimmed and lower-case. */
  lemma LogLinesWellFormed(attempts: seq<RunAttempt>)
    ensures forall l :: l in UniqueLogLines(attempts) ==> IsLogLine(l)
  {
    forall l | l in UniqueLogLines(attempts) ensures IsLogLine(l) {
      LogLinesMember(attempts, l);
      var i :| 0 <= i < |attempts| && l in AttemptLines(attempts[i]);
      UnionMapMember(Chunks(attempts[i]), ChunkLines, l);
      var j :| 0 <= j < |Chunks(attempts[i])| && l in ChunkLines(Chunks(attempts[i])[j]);
      var parts := Split(Chunks(attempts[i])[j], '\n');
      PartsLinesMember(parts, l);
      var k :| 0 <= k < |parts| && Trim(parts[k]) != "" && l == NormalizeLine(parts[k]);
      NormalizeLineWellFormed(parts[k]);
    }
  }

  /** The innermost loop of the source: adds every non-blank line of one
      chunk, trimmed and in lower case. */
  method AddChunkLines(lines: set<string>, chunk: string) returns (r: set<string>)
    ensures r == lines + ChunkLines(chunk)
  {
    r := lines;
    var parts := Split(chunk, '\n');
    for k := 0 to |parts|
      invariant r == lines + PartsLines(parts[..k])
    {
      var trimmed := Trim(parts[k]);
      if trimmed != "" {
        r := r + {ToLower(trimmed)};
      }
      UnionMapSnoc(parts, k, LineOf);
    }
    assert parts[..|parts|] == parts;
  }

  /** The middle loop: the chunks of one attempt, stdout first. */
  method AddAttemptLines(lines: set<string>, a: RunAttempt) returns (r: set<string>)
    ensures r == lines + AttemptLines(a)
  {
    r := lines;
    var chunks := Chunks(a);
    for j := 0 to |chunks|
      invariant r == lines + UnionMap(chunks[..j], ChunkLines)
    {
      r := AddChunkLines(r, chunks[j]);
      UnionMapSnoc(chunks, j, ChunkLines);
    }
    assert chunks[..|chunks|] == chunks;
  }

  /** The loop of the source: attempts, then their chunks, then the lines of
      each chunk, adding every non-blank trimmed line in lower case. */
  method ExtractUniqueLogLines(attempts: seq<RunAttempt>) returns (lines: set<string>)
    ensures lines == UniqueLogLines(attempts)
    ensures forall l :: l in lines ==> IsLogLine(l)
  {
    lines := {};
    for i := 0 to |attempts|
      invariant lines == UniqueLogLines(attempts[..i])
    {
      lines := AddAttemptLines(lines, attempts[i]);
      UnionMapSnoc(attempts, i, AttemptLines);
    }
    assert attempts[..|attempts|] == attempts;
    LogLinesWellFormed(attempts);
  }
}
