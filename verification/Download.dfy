/**
 * Resumable downloads over several sources, verified at the end. The network and the digests are
 * parameters.
 */
module Download {
  import opened Options

  type Bytes = seq<bv8>

  datatype Code = Unreachable | NotFound | ChecksumMismatch | TooLarge | Io | InvalidPayload | Cancelled

  /** A response; `abortAt` is the chunk at whose arrival the caller has cancelled. */
  datatype Response =
    | NoAnswer
    | AbortedFetch
    | Answer(status: nat, hasBody: bool, contentLength: Option<nat>, rangeTotal: Option<nat>,
             chunks: seq<Bytes>, cut: bool, abortAt: Option<nat>)

  /** The answer to an attempt at a source, given how many bytes are there already. */
  datatype Network = Network(reply: (nat, nat, nat) -> Response, abortedBefore: (nat, nat) -> bool)

  datatype Digests = Digests(sha256: Bytes -> nat, sha1: Bytes -> nat)

  datatype Request = Request(
    resolvable: seq<bool>,    // one entry per source: its URL can be resolved
    sha256: Option<nat>,
    sha1: Option<nat>,
    size: Option<nat>,
    maxBytes: Option<nat>,
    retries: Option<int>)

  datatype Failure = Failure(index: nat, code: Code)

  datatype Result =
    | Done(size: nat, index: nat, failures: seq<Failure>)
    | Error(code: Code, failures: seq<Failure>)

  type Part = Option<Bytes>

  function Size(part: Part): nat {
    if part.Some? then |part.value| else 0
  }

  // ----- One request -----

  datatype StreamEnd = Ended | Broken | Overflow | Aborted

  /** Appends chunk after chunk. */
  function Stream(
    file: Bytes, chunks: seq<Bytes>, max: Option<nat>, abortAt: Option<nat>, cut: bool): (Bytes, StreamEnd)
    decreases |chunks|
  {
    if chunks == [] then (file, if !cut then Ended else if abortAt.Some? then Aborted else Broken)
    else if abortAt == Some(0) then (file, Aborted)
    else if max.Some? && |file| + |chunks[0]| > max.value then (file, Overflow)
    else Stream(file + chunks[0], chunks[1..], max, Sooner(abortAt), cut)
  }

  function Sooner(at: Option<nat>): Option<nat> {
    if at.Some? && at.value > 0 then Some(at.value - 1) else at
  }

  datatype Outcome = Complete | Interrupted | Failed(code: Code)

  predicate IsOk(status: nat) { 200 <= status <= 299 }

  /** Where the body goes in the file: only a 206 answer continues it. */
  function Offset(existing: nat, status: nat): nat {
    if existing > 0 && status != 206 then 0 else existing
  }

  function ExpectedTotal(q: Request, r: Response): Option<nat>
    requires r.Answer?
  {
    if q.size.Some? then q.size else if r.status == 206 then r.rangeTotal else r.contentLength
  }

  function Exceeds(total: Option<nat>, max: Option<nat>): bool {
    total.Some? && max.Some? && total.value > max.value
  }

  predicate AlreadyThere(q: Request, part: Part) {
    q.size.Some? && Size(part) >= q.size.value && q.size.value > 0
  }

  function Receive(part: Part, q: Request, r: Response): (Part, Outcome)
    requires r.Answer?
  {
    var offset := Offset(Size(part), r.status);
    var total := ExpectedTotal(q, r);
    if Exceeds(total, q.maxBytes) then (part, Failed(TooLarge))
    else
      var base := if offset > 0 then part.value[..offset] else [];
      var (file, end) := Stream(base, r.chunks, q.maxBytes, r.abortAt, r.cut);
      var outcome := match end
        case Ended => if total.Some? && |file| < total.value then Interrupted else Complete
        case Broken => Failed(Io)
        case Overflow => Failed(TooLarge)
        case Aborted => Failed(Cancelled);
      (Some(file), outcome)
  }

  function Fetch(part: Part, q: Request, r: Response): (Part, Outcome) {
    if AlreadyThere(q, part) then (part, Complete)
    else match r
      case NoAnswer => (part, Failed(Unreachable))
      case AbortedFetch => (part, Failed(Cancelled))
      case Answer(status, hasBody, _, _, _, _, _) =>
        if status == 416 && q.size.Some? && Size(part) >= q.size.value then (part, Complete)
        else if status == 404 || status == 410 || status == 403 then (part, Failed(NotFound))
        else if !IsOk(status) || !hasBody then (part, Failed(Io))
        else Receive(part, q, r)
  }

  predicate Matches(file: Bytes, q: Request, d: Digests) {
    && (q.sha256.Some? ==> q.sha256.value == d.sha256(file))
    && (q.sha1.Some? ==> q.sha1.value == d.sha1(file))
    && (q.size.Some? ==> q.size.value == |file|)
  }

  /** Reads the file back; a file that does not match is deleted. */
  function Verify(part: Part, q: Request, d: Digests): (Part, Option<Code>) {
    if part.None? then (part, Some(Io))
    else if Matches(part.value, q, d) then (part, None)
    else (None, Some(ChecksumMismatch))
  }

  // ----- The two loops -----

  /** Not worth another attempt at the same source. */
  predicate Final(code: Code) {
    code == Unreachable || code == NotFound || code == ChecksumMismatch || code == TooLarge
  }

  datatype SourceEnd = Found | Stopped | GaveUp(code: Code)

  function AttemptsOf(q: Request): nat {
    if q.retries.None? then 3 else if q.retries.value < 1 then 1 else q.retries.value
  }

  /** One attempt, with the verification of a complete file. */
  function Try(part: Part, q: Request, d: Digests, r: Response): (Part, Outcome) {
    var (file, outcome) := Fetch(part, q, r);
    if !outcome.Complete? then (file, outcome)
    else
      var (kept, problem) := Verify(file, q, d);
      (kept, if problem.None? then Complete else Failed(problem.value))
  }

  function TrySource(
    part: Part, q: Request, d: Digests, net: Network, index: nat, attempt: nat, last: Code): (Part, SourceEnd)
    decreases AttemptsOf(q) - attempt
  {
    if attempt >= AttemptsOf(q) then (part, GaveUp(last))
    else if net.abortedBefore(index, attempt) then (part, Stopped)
    else
      var (file, outcome) := Try(part, q, d, net.reply(index, attempt, Size(part)));
      match outcome
      case Complete => (file, Found)
      case Interrupted => TrySource(file, q, d, net, index, attempt + 1, Io)
      case Failed(code) =>
        if code == Cancelled then (file, Stopped)
        else if Final(code) then (file, GaveUp(code))
        else TrySource(file, q, d, net, index, attempt + 1, code)
  }

  function FailureCode(failures: seq<Failure>): Code {
    if forall i :: 0 <= i < |failures| ==> failures[i].code == Unreachable then Unreachable
    else if |failures| == 1 then failures[0].code
    else Io
  }

  function TryAll(part: Part, q: Request, d: Digests, net: Network, index: nat, failures: seq<Failure>): (Part, Result)
    decreases |q.resolvable| - index
  {
    if index >= |q.resolvable| then (part, Error(FailureCode(failures), failures))
    else if !q.resolvable[index] then TryAll(part, q, d, net, index + 1, failures + [Failure(index, InvalidPayload)])
    else
      var (file, end) := TrySource(part, q, d, net, index, 0, Io);
      match end
      case Found => (file, Done(Size(file), index, failures))
      case Stopped => (file, Error(Cancelled, failures))
      case GaveUp(code) => TryAll(file, q, d, net, index + 1, failures + [Failure(index, code)])
  }

  // ----- Never past the limit -----

  function Larger(a: nat, b: nat): nat { if a < b then b else a }

  lemma {:induction false} StreamIsBounded(file: Bytes, chunks: seq<Bytes>, max: nat, abortAt: Option<nat>, cut: bool)
    ensures |Stream(file, chunks, Some(max), abortAt, cut).0| <= Larger(|file|, max)
    decreases |chunks|
  {
    if chunks != [] && |file| + |chunks[0]| <= max {
      StreamIsBounded(file + chunks[0], chunks[1..], max, Sooner(abortAt), cut);
    }
  }

  lemma TryIsBounded(part: Part, q: Request, d: Digests, r: Response)
    requires q.maxBytes.Some?
    ensures Size(Try(part, q, d, r).0) <= Larger(Size(part), q.maxBytes.value)
  {
    hide Stream;
    if r.Answer? {
      var offset := Offset(Size(part), r.status);
      var base := if offset > 0 then part.value[..offset] else [];
      StreamIsBounded(base, r.chunks, q.maxBytes.value, r.abortAt, r.cut);
    }
  }

  lemma {:induction false} SourceIsBounded(
    part: Part, q: Request, d: Digests, net: Network, index: nat, attempt: nat, last: Code)
    requires q.maxBytes.Some?
    ensures Size(TrySource(part, q, d, net, index, attempt, last).0) <= Larger(Size(part), q.maxBytes.value)
    decreases AttemptsOf(q) - attempt
  {
    hide Try, Size;
    if attempt < AttemptsOf(q) && !net.abortedBefore(index, attempt) {
      var r := net.reply(index, attempt, Size(part));
      var (file, outcome) := Try(part, q, d, r);
      TryIsBounded(part, q, d, r);
      SourceIsBounded(file, q, d, net, index, attempt + 1, Io);
      if outcome.Failed? { SourceIsBounded(file, q, d, net, index, attempt + 1, outcome.code); }
    }
  }

  /** The partial file never grows past the limit, whatever the servers announce and send. */
  lemma {:induction false} NeverPastTheLimit(
    part: Part, q: Request, d: Digests, net: Network, index: nat, failures: seq<Failure>)
    requires q.maxBytes.Some?
    ensures Size(TryAll(part, q, d, net, index, failures).0) <= Larger(Size(part), q.maxBytes.value)
    decreases |q.resolvable| - index
  {
    hide TrySource, Size;
    if index < |q.resolvable| {
      if !q.resolvable[index] {
        NeverPastTheLimit(part, q, d, net, index + 1, failures + [Failure(index, InvalidPayload)]);
      } else {
        var (file, end) := TrySource(part, q, d, net, index, 0, Io);
        SourceIsBounded(part, q, d, net, index, 0, Io);
        if end.GaveUp? { NeverPastTheLimit(file, q, d, net, index + 1, failures + [Failure(index, end.code)]); }
      }
    }
  }

  // ----- Always a prefix of the content -----

  /** Chunk by chunk, the body. */
  function Joined(chunks: seq<Bytes>): Bytes {
    if chunks == [] then [] else chunks[0] + Joined(chunks[1..])
  }

  predicate PrefixOf(part: Part, content: Bytes) {
    part.None? || part.value <= content
  }

  /** Where an answer to a request for everything from `existing` on begins: only a 206 answer starts there. */
  function Begins(existing: nat, status: nat): nat {
    if status == 206 then existing else 0
  }

  /**
   * What RFC 9110 asks of a server that has this content: a 206 answer to a range request sends
   * bytes from the requested offset on (section 14.2 and 15.3.7), any other success from the start.
   * The body may end anywhere.
   */
  predicate HonestReply(r: Response, content: Bytes, existing: nat) {
    r.Answer? && IsOk(r.status) ==>
      var from := Begins(existing, r.status);
      from <= |content| && Joined(r.chunks) <= content[from..]
  }

  /** All sources serve the same content. */
  ghost predicate Honest(net: Network, content: Bytes) {
    forall index, attempt, existing :: HonestReply(net.reply(index, attempt, existing), content, existing)
  }

  lemma {:induction false} StreamAppends(
    file: Bytes, chunks: seq<Bytes>, max: Option<nat>, abortAt: Option<nat>, cut: bool)
    ensures var (out, end) := Stream(file, chunks, max, abortAt, cut);
            && file <= out <= file + Joined(chunks)
            && (end.Ended? ==> out == file + Joined(chunks))
    decreases |chunks|
  {
    if chunks != [] {
      StreamAppends(file + chunks[0], chunks[1..], max, Sooner(abortAt), cut);
      assert (file + chunks[0]) + Joined(chunks[1..]) == file + Joined(chunks);
    } else {
      assert file + [] == file;
    }
  }

  lemma PrefixGrows(base: Bytes, body: Bytes, out: Bytes, content: Bytes)
    requires base <= content && body <= content[|base|..] && out <= base + body
    ensures out <= content
  {
    assert content == base + content[|base|..];
  }

  lemma ReceiveKeepsPrefix(part: Part, q: Request, r: Response, content: Bytes)
    requires PrefixOf(part, content) && r.Answer? && IsOk(r.status) && HonestReply(r, content, Size(part))
    ensures PrefixOf(Receive(part, q, r).0, content)
  {
    var offset := Offset(Size(part), r.status);
    var base := if offset > 0 then part.value[..offset] else [];
    StreamAppends(base, r.chunks, q.maxBytes, r.abortAt, r.cut);
    hide Stream, Joined;
    PrefixGrows(base, Joined(r.chunks), Stream(base, r.chunks, q.maxBytes, r.abortAt, r.cut).0, content);
  }

  lemma TryKeepsPrefix(part: Part, q: Request, d: Digests, r: Response, content: Bytes)
    requires PrefixOf(part, content) && HonestReply(r, content, Size(part))
    ensures PrefixOf(Try(part, q, d, r).0, content)
  {
    hide Receive;
    if r.Answer? && IsOk(r.status) { ReceiveKeepsPrefix(part, q, r, content); }
    hide HonestReply;
  }

  lemma {:induction false} SourceKeepsPrefix(
    part: Part, q: Request, d: Digests, net: Network, index: nat, attempt: nat, last: Code, content: Bytes)
    requires PrefixOf(part, content) && Honest(net, content)
    ensures PrefixOf(TrySource(part, q, d, net, index, attempt, last).0, content)
    decreases AttemptsOf(q) - attempt
  {
    hide Try, HonestReply, PrefixOf;
    if attempt < AttemptsOf(q) && !net.abortedBefore(index, attempt) {
      var r := net.reply(index, attempt, Size(part));
      var (file, outcome) := Try(part, q, d, r);
      TryKeepsPrefix(part, q, d, r, content);
      SourceKeepsPrefix(file, q, d, net, index, attempt + 1, Io, content);
      if outcome.Failed? { SourceKeepsPrefix(file, q, d, net, index, attempt + 1, outcome.code, content); }
    }
  }

  /**
   * If the sources serve the same content and honour ranges, the partial file is a prefix of that
   * content after any interruptions, cancellations, retries and changes of source.
   */
  lemma {:induction false} AlwaysAPrefix(
    part: Part, q: Request, d: Digests, net: Network, index: nat, failures: seq<Failure>, content: Bytes)
    requires PrefixOf(part, content) && Honest(net, content)
    ensures PrefixOf(TryAll(part, q, d, net, index, failures).0, content)
    decreases |q.resolvable| - index
  {
    hide TrySource, Honest, PrefixOf;
    if index < |q.resolvable| {
      if !q.resolvable[index] {
        AlwaysAPrefix(part, q, d, net, index + 1, failures + [Failure(index, InvalidPayload)], content);
      } else {
        var (file, end) := TrySource(part, q, d, net, index, 0, Io);
        SourceKeepsPrefix(part, q, d, net, index, 0, Io, content);
        if end.GaveUp? { AlwaysAPrefix(file, q, d, net, index + 1, failures + [Failure(index, end.code)], content); }
      }
    }
  }

  // ----- What success means -----

  lemma {:induction false} FoundIsVerified(
    part: Part, q: Request, d: Digests, net: Network, index: nat, attempt: nat, last: Code)
    ensures var (file, end) := TrySource(part, q, d, net, index, attempt, last);
            end.Found? ==> file.Some? && Matches(file.value, q, d)
    decreases AttemptsOf(q) - attempt
  {
    hide Fetch, Matches;
    if attempt < AttemptsOf(q) && !net.abortedBefore(index, attempt) {
      var (file, outcome) := Try(part, q, d, net.reply(index, attempt, Size(part)));
      FoundIsVerified(file, q, d, net, index, attempt + 1, Io);
      if outcome.Failed? { FoundIsVerified(file, q, d, net, index, attempt + 1, outcome.code); }
    }
  }

  /** A successful download is the file that is there, with the size and digests asked for. */
  lemma {:induction false} SuccessIsVerified(
    part: Part, q: Request, d: Digests, net: Network, index: nat, failures: seq<Failure>)
    ensures var (file, result) := TryAll(part, q, d, net, index, failures);
            result.Done? ==>
              && file.Some? && result.size == |file.value|
              && (q.sha256.Some? ==> d.sha256(file.value) == q.sha256.value)
              && (q.sha1.Some? ==> d.sha1(file.value) == q.sha1.value)
              && (q.size.Some? ==> |file.value| == q.size.value)
    decreases |q.resolvable| - index
  {
    hide TrySource;
    if index < |q.resolvable| {
      if !q.resolvable[index] {
        SuccessIsVerified(part, q, d, net, index + 1, failures + [Failure(index, InvalidPayload)]);
      } else {
        var (file, end) := TrySource(part, q, d, net, index, 0, Io);
        FoundIsVerified(part, q, d, net, index, 0, Io);
        if end.GaveUp? { SuccessIsVerified(file, q, d, net, index + 1, failures + [Failure(index, end.code)]); }
      }
    }
  }

  /** With the right size, success is the whole content. */
  lemma SuccessIsTheContent(part: Part, q: Request, d: Digests, net: Network, content: Bytes)
    requires PrefixOf(part, content) && Honest(net, content) && q.size == Some(|content|)
    ensures var (file, result) := TryAll(part, q, d, net, 0, []);
            result.Done? ==> file == Some(content) && result.size == |content|
  {
    hide TryAll, Honest;
    AlwaysAPrefix(part, q, d, net, 0, [], content);
    SuccessIsVerified(part, q, d, net, 0, []);
    var (file, result) := TryAll(part, q, d, net, 0, []);
    if result.Done? { WholePrefix(file.value, content); }
  }

  lemma WholePrefix(file: Bytes, content: Bytes)
    requires file <= content && |file| >= |content|
    ensures file == content
  {
    assert file == content[..|file|];
  }

  /** Every success announces the length of the content. */
  predicate Announces(r: Response, length: nat) {
    r.Answer? && IsOk(r.status) ==> (if r.status == 206 then r.rangeTotal else r.contentLength) == Some(length)
  }

  ghost predicate AllAnnounce(net: Network, length: nat) {
    forall index, attempt, existing :: Announces(net.reply(index, attempt, existing), length)
  }

  lemma {:induction false} FoundIsWhole(
    part: Part, q: Request, d: Digests, net: Network, index: nat, attempt: nat, last: Code, content: Bytes)
    requires PrefixOf(part, content) && Honest(net, content) && AllAnnounce(net, |content|) && q.size.None?
    ensures var (file, end) := TrySource(part, q, d, net, index, attempt, last); end.Found? ==> file == Some(content)
    decreases AttemptsOf(q) - attempt
  {
    hide Try, HonestReply, Announces, PrefixOf;
    if attempt < AttemptsOf(q) && !net.abortedBefore(index, attempt) {
      var r := net.reply(index, attempt, Size(part));
      var (file, outcome) := Try(part, q, d, r);
      TryKeepsPrefix(part, q, d, r, content);
      CompleteIsWhole(part, q, d, r, content);
      FoundIsWhole(file, q, d, net, index, attempt + 1, Io, content);
      if outcome.Failed? { FoundIsWhole(file, q, d, net, index, attempt + 1, outcome.code, content); }
    }
  }

  lemma CompleteIsWhole(part: Part, q: Request, d: Digests, r: Response, content: Bytes)
    requires PrefixOf(part, content) && HonestReply(r, content, Size(part)) && Announces(r, |content|) && q.size.None?
    ensures Try(part, q, d, r).1.Complete? ==> Try(part, q, d, r).0 == Some(content)
  {
    if r.Answer? && IsOk(r.status) {
      ReceiveKeepsPrefix(part, q, r, content);
      hide Stream, HonestReply;
      var file := Receive(part, q, r).0;
      if file.Some? && |file.value| >= |content| { WholePrefix(file.value, content); }
    }
  }

  /** Without a size, success is still the whole content when the servers announce its length. */
  lemma {:induction false} AnnouncedSuccessIsTheContent(
    part: Part, q: Request, d: Digests, net: Network, index: nat, failures: seq<Failure>, content: Bytes)
    requires PrefixOf(part, content) && Honest(net, content) && AllAnnounce(net, |content|) && q.size.None?
    ensures var (file, result) := TryAll(part, q, d, net, index, failures);
            result.Done? ==> file == Some(content) && result.size == |content|
    decreases |q.resolvable| - index
  {
    hide TrySource, Honest, AllAnnounce, PrefixOf;
    if index < |q.resolvable| {
      if !q.resolvable[index] {
        AnnouncedSuccessIsTheContent(part, q, d, net, index + 1, failures + [Failure(index, InvalidPayload)], content);
      } else {
        var (file, end) := TrySource(part, q, d, net, index, 0, Io);
        SourceKeepsPrefix(part, q, d, net, index, 0, Io, content);
        FoundIsWhole(part, q, d, net, index, 0, Io, content);
        if end.GaveUp? {
          AnnouncedSuccessIsTheContent(file, q, d, net, index + 1, failures + [Failure(index, end.code)], content);
        }
      }
    }
  }

  // ----- When it succeeds, and when it cannot -----

  /** The rest of the content, complete and unbroken. */
  predicate SendsTheRest(r: Response, content: Bytes, existing: nat) {
    && r.Answer? && IsOk(r.status) && r.hasBody && !r.cut && r.abortAt.None?
    && Begins(existing, r.status) <= |content|
    && Joined(r.chunks) == content[Begins(existing, r.status)..]
  }

  lemma {:induction false} StreamEnds(file: Bytes, chunks: seq<Bytes>, max: Option<nat>)
    requires max.Some? ==> |file| + |Joined(chunks)| <= max.value
    ensures Stream(file, chunks, max, None, false) == (file + Joined(chunks), Ended)
    decreases |chunks|
  {
    if chunks != [] {
      StreamEnds(file + chunks[0], chunks[1..], max);
      assert (file + chunks[0]) + Joined(chunks[1..]) == file + Joined(chunks);
    } else {
      assert file + [] == file;
    }
  }

  /**
   * One unbroken answer is enough: a partial file that is a prefix of the content becomes the
   * content, from wherever it stood.
   */
  lemma RestCompletes(part: Part, q: Request, d: Digests, r: Response, content: Bytes)
    requires PrefixOf(part, content) && SendsTheRest(r, content, Size(part))
    requires q.size == Some(|content|) && Matches(content, q, d)
    requires q.maxBytes.Some? ==> |content| <= q.maxBytes.value
    ensures Try(part, q, d, r) == (Some(content), Complete)
  {
    if AlreadyThere(q, part) {
      assert part.value == content;
    } else {
      var offset := Offset(Size(part), r.status);
      var base := if offset > 0 then part.value[..offset] else [];
      assert base == content[..offset] && base + content[offset..] == content;
      StreamEnds(base, r.chunks, q.maxBytes);
      hide Stream, Joined;
    }
  }

  lemma UnbrokenAnswerCompletes(part: Part, q: Request, d: Digests, net: Network, content: Bytes)
    requires PrefixOf(part, content) && |q.resolvable| > 0 && q.resolvable[0] && !net.abortedBefore(0, 0)
    requires SendsTheRest(net.reply(0, 0, Size(part)), content, Size(part))
    requires q.size == Some(|content|) && Matches(content, q, d)
    requires q.maxBytes.Some? ==> |content| <= q.maxBytes.value
    ensures TryAll(part, q, d, net, 0, []) == (Some(content), Done(|content|, 0, []))
  {
    RestCompletes(part, q, d, net.reply(0, 0, Size(part)), content);
    hide Try, SendsTheRest, Matches, PrefixOf;
    assert TrySource(part, q, d, net, 0, 0, Io) == (Some(content), Found);
    hide TrySource;
  }

  /** RFC 9110, section 15.5.17: nothing to send behind the end of the content. */
  ghost predicate RefusesEmptyRanges(net: Network, length: nat) {
    forall index, attempt, existing :: existing >= length > 0 ==>
      net.reply(index, attempt, existing).Answer? && net.reply(index, attempt, existing).status == 416
  }

  lemma {:induction false} StuckSource(
    part: Part, q: Request, d: Digests, net: Network, index: nat, attempt: nat, last: Code)
    requires part.Some? && part.value != [] && q.size.None? && RefusesEmptyRanges(net, |part.value|)
    requires last == Io
    ensures TrySource(part, q, d, net, index, attempt, last) in {(part, GaveUp(Io)), (part, Stopped)}
    decreases AttemptsOf(q) - attempt
  {
    if attempt < AttemptsOf(q) && !net.abortedBefore(index, attempt) {
      var r := net.reply(index, attempt, Size(part));
      assert r.Answer? && r.status == 416;
      assert Try(part, q, d, r) == (part, Failed(Io));
      hide Try;
      StuckSource(part, q, d, net, index, attempt + 1, Io);
    }
  }

  /**
   * A partial file that is already complete, resumed without knowing the size: a conforming server
   * answers 416 to every attempt, and the download fails without trying from the start.
   */
  lemma {:induction false} CompletePartWithoutSizeFails(
    part: Part, q: Request, d: Digests, net: Network, index: nat, failures: seq<Failure>)
    requires part.Some? && part.value != [] && q.size.None? && RefusesEmptyRanges(net, |part.value|)
    ensures TryAll(part, q, d, net, index, failures).0 == part
    ensures TryAll(part, q, d, net, index, failures).1.Error?
    decreases |q.resolvable| - index
  {
    hide TrySource, RefusesEmptyRanges;
    if index < |q.resolvable| {
      if !q.resolvable[index] {
        CompletePartWithoutSizeFails(part, q, d, net, index + 1, failures + [Failure(index, InvalidPayload)]);
      } else {
        StuckSource(part, q, d, net, index, 0, Io);
        CompletePartWithoutSizeFails(part, q, d, net, index + 1, failures + [Failure(index, Io)]);
      }
    }
  }

  /** What a server that has the content answers to a request from `existing` on, undisturbed. */
  predicate Conforms(r: Response, content: Bytes, existing: nat) {
    if existing >= |content| > 0 then r.Answer? && r.status == 416
    else SendsTheRest(r, content, existing) && Announces(r, |content|)
  }

  ghost predicate AllConform(net: Network, content: Bytes) {
    forall index, attempt, existing :: Conforms(net.reply(index, attempt, existing), content, existing)
  }

  /** The first source with a usable URL is asked at least once. */
  predicate Asks(q: Request, net: Network, index: nat)
    decreases |q.resolvable| - index
  {
    index < |q.resolvable| && if q.resolvable[index] then !net.abortedBefore(index, 0) else Asks(q, net, index + 1)
  }

  /** Without a size too, one undisturbed answer completes a file that is not complete yet. */
  lemma RestCompletesWithoutSize(part: Part, q: Request, d: Digests, r: Response, content: Bytes)
    requires PrefixOf(part, content) && q.size.None? && Matches(content, q, d)
    requires q.maxBytes.Some? ==> |content| <= q.maxBytes.value
    requires SendsTheRest(r, content, Size(part)) && Announces(r, |content|)
    ensures Try(part, q, d, r) == (Some(content), Complete)
  {
    var offset := Offset(Size(part), r.status);
    var base := if offset > 0 then part.value[..offset] else [];
    assert base == content[..offset] && base + content[offset..] == content;
    StreamEnds(base, r.chunks, q.maxBytes);
    hide Stream, Joined;
    assert r.status != 416 && r.status != 404 && r.status != 410 && r.status != 403;
    assert Receive(part, q, r) == (Some(content), Complete);
  }

  /** A complete part without a size is stuck, any other one becomes the content. */
  lemma {:induction false} ResumeFrom(
    part: Part, q: Request, d: Digests, net: Network, index: nat, failures: seq<Failure>, content: Bytes)
    requires PrefixOf(part, content) && q.size.None? && Matches(content, q, d)
    requires q.maxBytes.Some? ==> |content| <= q.maxBytes.value
    requires AllConform(net, content) && Asks(q, net, index)
    requires Size(part) < |content| || content == []
    ensures var (file, result) := TryAll(part, q, d, net, index, failures); result.Done? && file == Some(content)
    decreases |q.resolvable| - index
  {
    hide Matches, Try;
    if q.resolvable[index] {
      var r := net.reply(index, 0, Size(part));
      assert Conforms(r, content, Size(part));
      hide SendsTheRest, Announces;
      RestCompletesWithoutSize(part, q, d, r, content);
    } else {
      hide PrefixOf, AllConform, TrySource;
      ResumeFrom(part, q, d, net, index + 1, failures + [Failure(index, InvalidPayload)], content);
    }
  }

  /**
   * When a download without a size can be resumed, with servers that serve the content undisturbed
   * and answer 416 behind its end: if and only if the partial file is not complete already.
   */
  lemma ResumeWithoutSizeExactly(part: Part, q: Request, d: Digests, net: Network, content: Bytes)
    requires PrefixOf(part, content) && q.size.None? && Matches(content, q, d)
    requires q.maxBytes.Some? ==> |content| <= q.maxBytes.value
    requires AllConform(net, content) && Asks(q, net, 0)
    ensures var (file, result) := TryAll(part, q, d, net, 0, []);
            && (result.Done? <==> Size(part) < |content| || content == [])
            && file == Some(content)
  {
    if Size(part) < |content| || content == [] {
      ResumeFrom(part, q, d, net, 0, [], content);
    } else {
      hide TryAll, Matches;
      WholePrefix(part.value, content);
      RefusesFrom(net, content);
      CompletePartWithoutSizeFails(part, q, d, net, 0, []);
    }
  }

  lemma RefusesFrom(net: Network, content: Bytes)
    requires AllConform(net, content)
    ensures RefusesEmptyRanges(net, |content|)
  {
    forall index, attempt, existing | existing >= |content| > 0
      ensures net.reply(index, attempt, existing).Answer? && net.reply(index, attempt, existing).status == 416
    {
      assert Conforms(net.reply(index, attempt, existing), content, existing);
    }
  }

  /**
   * The code of a failed download: unreachable when every source is (or there is none), that of the
   * only source, and otherwise a plain I/O error.
   */
  predicate SumsUp(code: Code, failures: seq<Failure>) {
    && (code == Unreachable <==> failures == [] || forall f <- failures :: f.code == Unreachable)
    && (|failures| == 1 ==> code == failures[0].code)
    && (|failures| > 1 && code != Unreachable ==> code == Io)
  }

  lemma SumIsRight(failures: seq<Failure>)
    ensures SumsUp(FailureCode(failures), failures)
  {
    forall i | 0 <= i < |failures| ensures failures[i] in failures {}
  }

  /** A failed download reports every source once, in order, unless it was cancelled. */
  lemma {:induction false} EverySourceIsReported(
    part: Part, q: Request, d: Digests, net: Network, index: nat, failures: seq<Failure>)
    requires |failures| == index <= |q.resolvable| && forall i :: 0 <= i < index ==> failures[i].index == i
    ensures var result := TryAll(part, q, d, net, index, failures).1;
            && (forall i :: 0 <= i < |result.failures| ==> result.failures[i].index == i)
            && (result.Done? ==> |result.failures| == result.index < |q.resolvable|)
            && (result.Error? ==>
                  || result.code == Cancelled
                  || (|result.failures| == |q.resolvable| && SumsUp(result.code, result.failures)))
    decreases |q.resolvable| - index
  {
    SumIsRight(failures);
    hide TrySource, FailureCode, SumsUp;
    if index < |q.resolvable| {
      var (file, end) := TrySource(part, q, d, net, index, 0, Io);
      if !q.resolvable[index] {
        EverySourceIsReported(part, q, d, net, index + 1, failures + [Failure(index, InvalidPayload)]);
      } else if end.GaveUp? {
        EverySourceIsReported(file, q, d, net, index + 1, failures + [Failure(index, end.code)]);
      }
    }
  }

  // ----- Several attempts -----

  /** Attempts at one source: three unless asked otherwise, and at least one. */
  lemma AttemptsAre(q: Request)
    ensures q.retries.None? ==> AttemptsOf(q) == 3
    ensures q.retries.Some? ==> AttemptsOf(q) >= 1 && (q.retries.value >= 1 ==> AttemptsOf(q) == q.retries.value)
    ensures q.retries.Some? && q.retries.value < 1 ==> AttemptsOf(q) == 1
  {
  }

  /** An answer that breaks off somewhere before the end of the content. */
  predicate BreaksOff(r: Response, content: Bytes, existing: nat) {
    && r.Answer? && IsOk(r.status) && r.hasBody && r.cut && r.abortAt.None?
    && HonestReply(r, content, existing) && Announces(r, |content|)
    && Begins(existing, r.status) + |Joined(r.chunks)| < |content|
  }

  /**
   * An interruption does not end the download: whatever the answers to the attempts before `k` brought
   * before they broke off, one undisturbed answer to attempt `k` completes the file.
   */
  lemma {:induction false} RetriesComplete(
    part: Part, q: Request, d: Digests, net: Network, index: nat, attempt: nat, k: nat, last: Code, content: Bytes)
    requires PrefixOf(part, content) && q.size in {None, Some(|content|)} && Matches(content, q, d)
    requires Size(part) < |content|
    requires q.maxBytes.Some? ==> |content| <= q.maxBytes.value
    requires attempt <= k < AttemptsOf(q) && forall a :: attempt <= a <= k ==> !net.abortedBefore(index, a)
    requires forall a: nat, existing: nat :: attempt <= a < k && existing < |content|
               ==> BreaksOff(net.reply(index, a, existing), content, existing)
    requires forall existing: nat :: existing < |content|
               ==> SendsTheRest(net.reply(index, k, existing), content, existing)
                   && Announces(net.reply(index, k, existing), |content|)
    ensures TrySource(part, q, d, net, index, attempt, last) == (Some(content), Found)
    decreases k - attempt
  {
    var r := net.reply(index, attempt, Size(part));
    hide Matches, Joined, HonestReply, Fetch, Verify, Stream;
    if attempt == k {
      hide BreaksOff;
      if q.size.None? {
        RestCompletesWithoutSize(part, q, d, r, content);
      } else {
        RestCompletes(part, q, d, r, content);
      }
      hide Try, SendsTheRest, Announces, PrefixOf;
    } else {
      assert BreaksOff(r, content, Size(part));
      BrokenAttempt(part, q, d, r, content);
      hide Try, BreaksOff, SendsTheRest, Announces, PrefixOf;
      var file := Try(part, q, d, r).0;
      RetriesComplete(file, q, d, net, index, attempt + 1, k, Io, content);
    }
  }

  /** An attempt that breaks off keeps what it brought and is worth another one. */
  lemma BrokenAttempt(part: Part, q: Request, d: Digests, r: Response, content: Bytes)
    requires PrefixOf(part, content) && q.size in {None, Some(|content|)} && Size(part) < |content|
    requires q.maxBytes.Some? ==> |content| <= q.maxBytes.value
    requires BreaksOff(r, content, Size(part))
    ensures var (file, outcome) := Try(part, q, d, r);
            outcome == Failed(Io) && PrefixOf(file, content) && Size(file) < |content|
  {
    var offset := Offset(Size(part), r.status);
    var base := if offset > 0 then part.value[..offset] else [];
    TryKeepsPrefix(part, q, d, r, content);
    StreamBreaks(base, r.chunks, q.maxBytes);
    hide Stream, Joined;
  }

  lemma {:induction false} StreamBreaks(file: Bytes, chunks: seq<Bytes>, max: Option<nat>)
    requires max.Some? ==> |file| + |Joined(chunks)| <= max.value
    ensures Stream(file, chunks, max, None, true) == (file + Joined(chunks), Broken)
    decreases |chunks|
  {
    if chunks != [] {
      StreamBreaks(file + chunks[0], chunks[1..], max);
      assert (file + chunks[0]) + Joined(chunks[1..]) == file + Joined(chunks);
    } else {
      assert file + [] == file;
    }
  }

  // ----- Where a body ends -----

  lemma JoinedFirst(chunks: seq<Bytes>, k: nat)
    requires k < |chunks|
    ensures Joined(chunks[..k + 1]) == chunks[0] + Joined(chunks[1..][..k])
  {
    assert chunks[..k + 1][1..] == chunks[1..][..k];
  }

  lemma JoinedNone(chunks: seq<Bytes>)
    ensures Joined(chunks[..0]) == []
  {
  }

  /** The chunk at `i` is not taken: the caller cancelled at its arrival, or it would pass the limit. */
  predicate StopsAt(file: Bytes, chunks: seq<Bytes>, max: Option<nat>, abortAt: Option<nat>, i: nat)
    requires i < |chunks|
  {
    abortAt == Some(i) || (max.Some? && |file| + |Joined(chunks[..i + 1])| > max.value)
  }

  lemma StopsLater(file: Bytes, chunks: seq<Bytes>, max: Option<nat>, abortAt: Option<nat>, i: nat)
    requires i + 1 < |chunks| && abortAt != Some(0)
    ensures StopsAt(file, chunks, max, abortAt, i + 1)
            <==> StopsAt(file + chunks[0], chunks[1..], max, Sooner(abortAt), i)
    ensures abortAt == Some(i + 1) <==> Sooner(abortAt) == Some(i)
  {
    JoinedFirst(chunks, i + 1);
    assert |chunks[0] + Joined(chunks[1..][..i + 1])| == |chunks[0]| + |Joined(chunks[1..][..i + 1])|;
    hide Joined;
  }

  lemma StreamUnfolds(file: Bytes, chunks: seq<Bytes>, max: Option<nat>, abortAt: Option<nat>, cut: bool)
    ensures Stream(file, chunks, max, abortAt, cut)
            == if chunks == [] then (file, if !cut then Ended else if abortAt.Some? then Aborted else Broken)
               else if abortAt == Some(0) then (file, Aborted)
               else if StopsAt(file, chunks, max, abortAt, 0) then (file, Overflow)
               else Stream(file + chunks[0], chunks[1..], max, Sooner(abortAt), cut)
  {
    if chunks != [] {
      JoinedFirst(chunks, 0);
      JoinedNone(chunks[1..]);
      assert chunks[0] + [] == chunks[0];
      hide Joined;
    }
  }

  /**
   * The chunks are taken up to the first at whose arrival the caller had cancelled, or that would pass
   * the limit; the reason why it ended there is told apart from a connection that broke.
   */
  lemma {:induction false} BodyEndsAt(
    file: Bytes, chunks: seq<Bytes>, max: Option<nat>, abortAt: Option<nat>, cut: bool) returns (k: nat)
    ensures k <= |chunks|
    ensures forall i: nat :: i < k ==> !StopsAt(file, chunks, max, abortAt, i)
    ensures k < |chunks| ==> StopsAt(file, chunks, max, abortAt, k)
    ensures Stream(file, chunks, max, abortAt, cut)
            == (file + Joined(chunks[..k]),
                if k < |chunks| then (if abortAt == Some(k) then Aborted else Overflow)
                else if !cut then Ended else if abortAt.Some? then Aborted else Broken)
    decreases |chunks|
  {
    k := 0;
    StreamUnfolds(file, chunks, max, abortAt, cut);
    JoinedNone(chunks);
    assert file + [] == file;
    hide Stream, Joined, Sooner;
    if chunks != [] && !StopsAt(file, chunks, max, abortAt, 0) {
      assert abortAt != Some(0);
      hide StopsAt;
      var rest := BodyEndsAt(file + chunks[0], chunks[1..], max, Sooner(abortAt), cut);
      k := rest + 1;
      forall i: nat | i < k ensures !StopsAt(file, chunks, max, abortAt, i) {
        if i > 0 { StopsLater(file, chunks, max, abortAt, i - 1); }
      }
      JoinedFirst(chunks, rest);
      if k < |chunks| { StopsLater(file, chunks, max, abortAt, rest); }
      SoonerSome(abortAt);
      assert (file + chunks[0]) + Joined(chunks[1..][..rest]) == file + Joined(chunks[..k]);
    }
  }

  lemma SoonerSome(at: Option<nat>)
    ensures Sooner(at).Some? <==> at.Some?
  {
  }

  // ----- Why a source fails -----

  predicate IsRefused(r: Response) {
    r.Answer? && (r.status == 403 || r.status == 404 || r.status == 410)
  }

  /** The answer announces more than the limit, or the size asked for is past it. */
  predicate AnnouncesTooMuch(q: Request, r: Response) {
    && r.Answer? && 200 <= r.status <= 299 && r.hasBody && q.maxBytes.Some?
    && var announced := if q.size.Some? then q.size else if r.status == 206 then r.rangeTotal else r.contentLength;
       announced.Some? && announced.value > q.maxBytes.value
  }

  /** The file is as long as asked for, and more than empty: no answer is needed. */
  predicate LongEnough(part: Part, q: Request) {
    part.Some? && q.size.Some? && 0 < q.size.value <= |part.value|
  }

  /**
   * What the answer to one attempt decides: an unreachable source, a refusal and an announcement past
   * the limit end the source at once and leave the file alone, a cancellation ends the download, and any
   * other answer without a body is worth another attempt.
   */
  lemma AnswerDecides(part: Part, q: Request, d: Digests, net: Network, index: nat, attempt: nat, last: Code)
    requires attempt < AttemptsOf(q) && !net.abortedBefore(index, attempt) && !LongEnough(part, q)
    ensures var r, end := net.reply(index, attempt, Size(part)), TrySource(part, q, d, net, index, attempt, last);
            && (r.NoAnswer? ==> end == (part, GaveUp(Unreachable)))
            && (r.AbortedFetch? ==> end == (part, Stopped))
            && (IsRefused(r) ==> end == (part, GaveUp(NotFound)))
            && (AnnouncesTooMuch(q, r) ==> end == (part, GaveUp(TooLarge)))
            && (r.Answer? && !IsRefused(r) && !(200 <= r.status <= 299 && r.hasBody)
                && !(r.status == 416 && q.size.Some? && Size(part) >= q.size.value) ==>
                  end == if attempt + 1 == AttemptsOf(q) then (part, GaveUp(Io))
                         else TrySource(part, q, d, net, index, attempt + 1, Io))
  {
    hide Stream, Matches;
  }

  lemma BodyOutcome(part: Part, q: Request, r: Response, k: nat)
    requires r.Answer? && 200 <= r.status <= 299 && r.hasBody && !AnnouncesTooMuch(q, r) && !LongEnough(part, q)
    requires Begins(Size(part), r.status) <= Size(part) && k <= |r.chunks|
    ensures var base := if part.Some? then part.value[..Begins(Size(part), r.status)] else [];
            var body := Stream(base, r.chunks, q.maxBytes, r.abortAt, r.cut);
            var (file, outcome) := Fetch(part, q, r);
            && file == Some(body.0)
            && (body.1.Ended? ==>
                  var total := if q.size.Some? then q.size
                               else if r.status == 206 then r.rangeTotal else r.contentLength;
                  outcome == if total.Some? && |body.0| < total.value then Interrupted else Complete)
            && (body.1.Broken? ==> outcome == Failed(Io))
            && (body.1.Overflow? ==> outcome == Failed(TooLarge))
            && (body.1.Aborted? ==> outcome == Failed(Cancelled))
  {
    hide Stream;
    if part.Some? { assert part.value[..0] == []; }
  }

  /** What becomes of the outcome of one request. */
  lemma OutcomeDecides(part: Part, q: Request, d: Digests, net: Network, index: nat, attempt: nat, last: Code)
    requires attempt < AttemptsOf(q) && !net.abortedBefore(index, attempt)
    ensures var (file, outcome) := Fetch(part, q, net.reply(index, attempt, Size(part)));
            var end := TrySource(part, q, d, net, index, attempt, last);
            && (outcome.Interrupted? || outcome == Failed(Io) ==>
                  end == TrySource(file, q, d, net, index, attempt + 1, Io))
            && (outcome == Failed(Cancelled) ==> end == (file, Stopped))
            && (outcome == Failed(TooLarge) ==> end == (file, GaveUp(TooLarge)))
            && (outcome.Complete? && file.Some? ==>
                  end == if Matches(file.value, q, d) then (file, Found) else (None, GaveUp(ChecksumMismatch)))
  {
    hide Fetch, Matches;
  }

  lemma Exhausted(part: Part, q: Request, d: Digests, net: Network, index: nat, attempt: nat, last: Code)
    requires attempt == AttemptsOf(q)
    ensures TrySource(part, q, d, net, index, attempt, last) == (part, GaveUp(last))
  {
  }

  lemma MatchesIs(file: Bytes, q: Request, d: Digests)
    ensures Matches(file, q, d) <==>
              && (q.size.Some? ==> |file| == q.size.value)
              && (q.sha256.Some? ==> d.sha256(file) == q.sha256.value)
              && (q.sha1.Some? ==> d.sha1(file) == q.sha1.value)
  {
  }

  /**
   * What a body decides. It goes behind what is there when the answer is a 206, and replaces it
   * otherwise. A chunk past the limit ends the source, a cancellation the download; after a connection
   * that broke or a body that was too short the next attempt goes on from what arrived; and a whole body
   * is verified.
   */
  lemma BodyDecides(part: Part, q: Request, d: Digests, net: Network, index: nat, attempt: nat, last: Code)
    returns (k: nat)
    requires attempt < AttemptsOf(q) && !net.abortedBefore(index, attempt) && !LongEnough(part, q)
    requires var r := net.reply(index, attempt, Size(part));
             r.Answer? && 200 <= r.status <= 299 && r.hasBody && !AnnouncesTooMuch(q, r)
    ensures var r, end := net.reply(index, attempt, Size(part)), TrySource(part, q, d, net, index, attempt, last);
            var base := if part.Some? && r.status == 206 then part.value else [];
            && k <= |r.chunks|
            && var file := Some(base + Joined(r.chunks[..k]));
               && (forall i: nat :: i < k ==> !StopsAt(base, r.chunks, q.maxBytes, r.abortAt, i))
               && (k < |r.chunks| ==> StopsAt(base, r.chunks, q.maxBytes, r.abortAt, k))
               && (k < |r.chunks| && r.abortAt == Some(k) ==> end == (file, Stopped))
               && (k < |r.chunks| && r.abortAt != Some(k) ==> end == (file, GaveUp(TooLarge)))
               && (k == |r.chunks| && r.cut && r.abortAt.Some? ==> end == (file, Stopped))
               && (k == |r.chunks| && r.cut && r.abortAt.None? ==>
                     end == if attempt + 1 == AttemptsOf(q) then (file, GaveUp(Io))
                            else TrySource(file, q, d, net, index, attempt + 1, Io))
               && (k == |r.chunks| && !r.cut ==>
                     var total := if q.size.Some? then q.size
                                  else if r.status == 206 then r.rangeTotal else r.contentLength;
                     var intact := && (q.size.Some? ==> |file.value| == q.size.value)
                                   && (q.sha256.Some? ==> d.sha256(file.value) == q.sha256.value)
                                   && (q.sha1.Some? ==> d.sha1(file.value) == q.sha1.value);
                     end == if total.Some? && |file.value| < total.value
                            then if attempt + 1 == AttemptsOf(q) then (file, GaveUp(Io))
                                 else TrySource(file, q, d, net, index, attempt + 1, Io)
                            else if intact then (file, Found) else (None, GaveUp(ChecksumMismatch)))
  {
    var r := net.reply(index, attempt, Size(part));
    var base := if part.Some? && r.status == 206 then part.value else [];
    k := BodyEndsAt(base, r.chunks, q.maxBytes, r.abortAt, r.cut);
    BodyOutcome(part, q, r, k);
    FullSlices(part);
    var file := base + Joined(r.chunks[..k]);
    assert Fetch(part, q, r).0 == Some(file);
    OutcomeDecides(part, q, d, net, index, attempt, last);
    if attempt + 1 == AttemptsOf(q) { Exhausted(Some(file), q, d, net, index, attempt + 1, Io); }
    MatchesIs(file, q, d);
    hide Stream, Fetch, AnnouncesTooMuch, LongEnough, Joined, StopsAt, Matches, TrySource, AttemptsOf, Begins, IsOk;
  }

  lemma FullSlices(part: Part)
    ensures part.Some? ==> part.value[..|part.value|] == part.value && part.value[..0] == []
  {
  }

  /** A file as long as asked for is verified without waiting for a body: found, or deleted. */
  lemma LongEnoughIsVerified(part: Part, q: Request, d: Digests, net: Network, index: nat, attempt: nat, last: Code)
    requires attempt < AttemptsOf(q) && !net.abortedBefore(index, attempt)
    requires part.Some? && q.size.Some? && |part.value| >= q.size.value
    requires var r := net.reply(index, attempt, Size(part)); q.size.value > 0 || (r.Answer? && r.status == 416)
    ensures var intact := && |part.value| == q.size.value
                          && (q.sha256.Some? ==> d.sha256(part.value) == q.sha256.value)
                          && (q.sha1.Some? ==> d.sha1(part.value) == q.sha1.value);
            TrySource(part, q, d, net, index, attempt, last)
            == if intact then (part, Found) else (None, GaveUp(ChecksumMismatch))
  {
    hide Receive;
  }

  /** Why a source that was given up can have this code. */
  ghost predicate Explained(q: Request, net: Network, index: nat, code: Code) {
    match code
    case Unreachable => exists attempt, existing :: net.reply(index, attempt, existing).NoAnswer?
    case NotFound => exists attempt, existing :: IsRefused(net.reply(index, attempt, existing))
    case TooLarge => q.maxBytes.Some? && exists attempt, existing :: net.reply(index, attempt, existing).Answer?
    case ChecksumMismatch => q.sha256.Some? || q.sha1.Some? || q.size.Some?
    case Io => true
    case InvalidPayload => false
    case Cancelled => false
  }

  /** The caller cancelled, before, while waiting for, or while reading an answer of this source. */
  ghost predicate WasCancelled(net: Network, index: nat) {
    || (exists attempt :: net.abortedBefore(index, attempt))
    || (exists attempt, existing :: net.reply(index, attempt, existing).AbortedFetch?)
    || (exists attempt, existing ::
          net.reply(index, attempt, existing).Answer? && net.reply(index, attempt, existing).abortAt.Some?)
  }

  lemma TryExplains(part: Part, q: Request, d: Digests, net: Network, index: nat, attempt: nat)
    ensures var outcome := Try(part, q, d, net.reply(index, attempt, Size(part))).1;
            outcome.Failed? ==>
              if outcome.code == Cancelled then WasCancelled(net, index) else Explained(q, net, index, outcome.code)
  {
    var r := net.reply(index, attempt, Size(part));
    assert r == net.reply(index, attempt, Size(part));
    hide Stream, Offset, ExpectedTotal;
    if r.Answer? {
      var base := if Offset(Size(part), r.status) > 0 then part.value[..Offset(Size(part), r.status)] else [];
      StreamEndReasons(base, r.chunks, q.maxBytes, r.abortAt, r.cut);
    }
  }

  lemma StreamEndReasons(file: Bytes, chunks: seq<Bytes>, max: Option<nat>, abortAt: Option<nat>, cut: bool)
    ensures var end := Stream(file, chunks, max, abortAt, cut).1;
            (end.Aborted? ==> abortAt.Some?) && (end.Overflow? ==> max.Some?)
  {
    var k := BodyEndsAt(file, chunks, max, abortAt, cut);
  }

  lemma IoNeedsNoReason(q: Request, net: Network, index: nat)
    ensures Explained(q, net, index, Io)
  {
  }

  lemma {:induction false} SourceExplains(
    part: Part, q: Request, d: Digests, net: Network, index: nat, attempt: nat, last: Code)
    requires Explained(q, net, index, last)
    ensures var end := TrySource(part, q, d, net, index, attempt, last).1;
            (end.GaveUp? ==> Explained(q, net, index, end.code)) && (end.Stopped? ==> WasCancelled(net, index))
    decreases AttemptsOf(q) - attempt
  {
    if attempt < AttemptsOf(q) && !net.abortedBefore(index, attempt) {
      var (file, outcome) := Try(part, q, d, net.reply(index, attempt, Size(part)));
      TryExplains(part, q, d, net, index, attempt);
      IoNeedsNoReason(q, net, index);
      hide Try, Explained, WasCancelled;
      SourceExplains(file, q, d, net, index, attempt + 1, Io);
      if outcome.Failed? && outcome.code != Cancelled {
        SourceExplains(file, q, d, net, index, attempt + 1, outcome.code);
      }
    }
  }

  /**
   * Every reported failure has its reason in what the source answered, and a download is cancelled only
   * by the caller.
   */
  lemma {:induction false} FailuresHaveReasons(
    part: Part, q: Request, d: Digests, net: Network, index: nat, failures: seq<Failure>)
    requires forall f <- failures :: f.index < |q.resolvable|
    requires forall f <- failures ::
               if q.resolvable[f.index] then Explained(q, net, f.index, f.code) else f.code == InvalidPayload
    ensures var result := TryAll(part, q, d, net, index, failures).1;
            && (forall f <- result.failures ::
                  && f.index < |q.resolvable|
                  && if q.resolvable[f.index] then Explained(q, net, f.index, f.code) else f.code == InvalidPayload)
            && (result.Error? && result.code == Cancelled ==>
                  exists i :: 0 <= i < |q.resolvable| && WasCancelled(net, i))
    decreases |q.resolvable| - index
  {
    hide TrySource, Explained, WasCancelled;
    if index >= |q.resolvable| {
      SumIsNotCancelled(q, net, failures);
    } else if !q.resolvable[index] {
      FailuresHaveReasons(part, q, d, net, index + 1, failures + [Failure(index, InvalidPayload)]);
    } else {
      var (file, end) := TrySource(part, q, d, net, index, 0, Io);
      IoNeedsNoReason(q, net, index);
      SourceExplains(part, q, d, net, index, 0, Io);
      if end.GaveUp? {
        FailuresHaveReasons(file, q, d, net, index + 1, failures + [Failure(index, end.code)]);
      }
    }
  }

  lemma SumIsNotCancelled(q: Request, net: Network, failures: seq<Failure>)
    requires forall f <- failures :: f.index < |q.resolvable|
    requires forall f <- failures ::
               if q.resolvable[f.index] then Explained(q, net, f.index, f.code) else f.code == InvalidPayload
    ensures FailureCode(failures) != Cancelled
  {
    if |failures| == 1 { assert failures[0] in failures; }
  }

  // ----- The downloader -----

  class Downloader {
    var part: Part

    constructor (existing: Part)
      ensures part == existing
    {
      part := existing;
    }

    method WriteChunks(r: Response, max: Option<nat>) returns (end: StreamEnd)
      requires r.Answer? && part.Some?
      modifies this
      ensures (part, end) == (Some(Stream(old(part.value), r.chunks, max, r.abortAt, r.cut).0),
                              Stream(old(part.value), r.chunks, max, r.abortAt, r.cut).1)
    {
      var received := |part.value|;
      var i := 0;
      var abortAt := r.abortAt;
      while i < |r.chunks|
        invariant 0 <= i <= |r.chunks|
        invariant part.Some? && received == |part.value|
        invariant abortAt.Some? <==> r.abortAt.Some?
        invariant Stream(part.value, r.chunks[i..], max, abortAt, r.cut)
                  == Stream(old(part.value), r.chunks, max, r.abortAt, r.cut)
      {
        var chunk := r.chunks[i];
        assert r.chunks[i..][0] == chunk && r.chunks[i..][1..] == r.chunks[i + 1..];
        if abortAt == Some(0) { return Aborted; }
        if max.Some? && received + |chunk| > max.value { return Overflow; }
        assert WriteAt(part.value, received, chunk) == part.value + chunk;
        part := Some(WriteAt(part.value, received, chunk));
        received := received + |chunk|;
        abortAt := Sooner(abortAt);
        i := i + 1;
      }
      assert r.chunks[i..] == [];
      end := if !r.cut then Ended else if abortAt.Some? then Aborted else Broken;
    }

    method FetchChunk(q: Request, r: Response) returns (outcome: Outcome)
      modifies this
      ensures (part, outcome) == Fetch(old(part), q, r)
    {
      var existing := Size(part);
      if q.size.Some? && existing >= q.size.value && q.size.value > 0 { return Complete; }
      if r.NoAnswer? { return Failed(Unreachable); }
      if r.AbortedFetch? { return Failed(Cancelled); }
      if r.status == 416 && q.size.Some? && existing >= q.size.value { return Complete; }
      if r.status == 404 || r.status == 410 || r.status == 403 { return Failed(NotFound); }
      if !IsOk(r.status) || !r.hasBody { return Failed(Io); }
      var offset := existing;
      if existing > 0 && r.status != 206 { offset := 0; }
      var total := ExpectedTotal(q, r);
      if Exceeds(total, q.maxBytes) { return Failed(TooLarge); }
      part := Some(if offset > 0 then part.value[..offset] else []);
      var end := WriteChunks(r, q.maxBytes);
      match end
      case Ended => outcome := if total.Some? && Size(part) < total.value then Interrupted else Complete;
      case Broken => outcome := Failed(Io);
      case Overflow => outcome := Failed(TooLarge);
      case Aborted => outcome := Failed(Cancelled);
    }

    method VerifyPart(q: Request, d: Digests) returns (problem: Option<Code>)
      modifies this
      ensures (part, problem) == Verify(old(part), q, d)
      ensures problem == if old(part).None? then Some(Io)
                         else if (q.sha256.Some? && d.sha256(old(part).value) != q.sha256.value)
                                 || (q.sha1.Some? && d.sha1(old(part).value) != q.sha1.value)
                                 || (q.size.Some? && |old(part).value| != q.size.value)
                         then Some(ChecksumMismatch) else None
      ensures part == if problem.None? then old(part) else None
    {
      if part.None? { return Some(Io); }
      if Matches(part.value, q, d) { return None; }
      part := None;
      problem := Some(ChecksumMismatch);
    }

    method DownloadWithResume(q: Request, d: Digests, net: Network) returns (result: Result)
      modifies this
      ensures (part, result) == TryAll(old(part), q, d, net, 0, [])
    {
      var failures: seq<Failure> := [];
      var index := 0;
      while index < |q.resolvable|
        invariant 0 <= index <= |q.resolvable|
        invariant TryAll(part, q, d, net, index, failures) == TryAll(old(part), q, d, net, 0, [])
      {
        if !q.resolvable[index] {
          failures := failures + [Failure(index, InvalidPayload)];
          index := index + 1;
          continue;
        }
        var attempts := AttemptsOf(q);
        var lastError := Io;
        var attempt := 0;
        ghost var before := part;
        while attempt < attempts
          invariant 0 <= attempt <= attempts
          invariant TrySource(part, q, d, net, index, attempt, lastError) == TrySource(before, q, d, net, index, 0, Io)
        {
          hide TryAll, Fetch, Verify;
          if net.abortedBefore(index, attempt) { return Error(Cancelled, failures); }
          var done := FetchChunk(q, net.reply(index, attempt, Size(part)));
          var problem: Option<Code> := None;
          if done.Complete? {
            problem := VerifyPart(q, d);
            if problem.None? { return Done(Size(part), index, failures); }
          } else if done.Failed? {
            problem := Some(done.code);
          }
          if problem == Some(Cancelled) { return Error(Cancelled, failures); }
          lastError := if problem.None? then Io else problem.value;
          if problem.Some? && Final(problem.value) { break; }
          attempt := attempt + 1;
        }
        failures := failures + [Failure(index, lastError)];
        index := index + 1;
      }
      result := Error(FailureCode(failures), failures);
    }
  }

  /** Writing at a position keeps what is behind the written bytes. */
  function WriteAt(file: Bytes, at: nat, bytes: Bytes): Bytes
    requires at <= |file|
  {
    file[..at] + bytes + (if at + |bytes| < |file| then file[at + |bytes|..] else [])
  }
}
