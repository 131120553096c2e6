/**
 The chunked three-stage driver around a key-store cipher session, and AES-GCM as that session.
 */
module CryptSpec {
  import opened Options

  type byte = bv8

  const TIMES: nat := 4
  const MAX_UPDATE_SIZE: nat := 64
  const MAX_OUTDATA_SIZE: nat := MAX_UPDATE_SIZE * TIMES
  const AEAD_LEN: nat := 16
  const HKS_SUCCESS: int := 0
  const HKS_FAILURE: int := -1
  const HKS_ERROR_INVALID_ARGUMENT: int := -3
  const HKS_ERROR_BUFFER_TOO_SMALL: int := -7
  const HKS_ERROR_CRYPTO_ENGINE_ERROR: int := -31

  /** One call of a session: the input chunk, where its output begins, and the capacity declared for it there. */
  datatype Call = Call(chunk: seq<byte>, offset: nat, capacity: nat)

  datatype Answer = Refused(code: int) | Out(bytes: seq<byte>)

  /** A session: the answer to an update or to the finish is a function of all calls so far, the current one last. */
  datatype Engine = Engine(update: seq<Call> -> Answer, finish: seq<Call> -> Answer)

  ghost predicate Fits(a: Answer, calls: seq<Call>)
    requires calls != []
  {
    a.Out? ==> |a.bytes| <= calls[|calls| - 1].capacity
  }

  /** The session never returns more than the declared capacity. */
  ghost predicate Honours(e: Engine) {
    forall calls: seq<Call> :: calls != [] ==> Fits(e.update(calls), calls) && Fits(e.finish(calls), calls)
  }

  /** `Overrun`: the driver handed over more bytes than the input has, and nothing is known of the outcome. */
  datatype Outcome = Failed(calls: seq<Call>) | Done(out: seq<byte>, calls: seq<Call>) | Overrun

  function UpdateCall(input: seq<byte>, pos: nat, offset: nat, capacity: nat): Call
    requires pos + MAX_UPDATE_SIZE <= |input|
  {
    Call(input[pos..pos + MAX_UPDATE_SIZE], offset, capacity)
  }

  function FinishCall(input: seq<byte>, pos: nat, offset: nat): Call
    requires pos <= |input|
  {
    Call(input[pos..], offset, (|input| - pos) * TIMES)
  }

  /**
   The driver from input position `pos` on. Full chunks go to `update` while more than one chunk's worth of input
   is left; the declared capacity is the size of the previous output. The rest goes to `finish`.
   */
  function Drive(e: Engine, input: seq<byte>, pos: nat, calls: seq<Call>, capacity: nat, out: seq<byte>): (r: Outcome)
    requires pos < |input|
    ensures !r.Overrun?
    decreases |input| - pos
  {
    if |input| <= pos + MAX_UPDATE_SIZE then
      var calls' := calls + [FinishCall(input, pos, |out|)];
      match e.finish(calls')
      case Refused(_) => Failed(calls')
      case Out(bytes) => Done(out + bytes, calls')
    else
      var calls' := calls + [UpdateCall(input, pos, |out|, capacity)];
      match e.update(calls')
      case Refused(_) => Failed(calls')
      case Out(bytes) => Drive(e, input, pos + MAX_UPDATE_SIZE, calls', |bytes|, out + bytes)
  }

  /** With an empty input the loop is not entered and the finish call gets a whole chunk that is not there. */
  function DriveAll(e: Engine, input: seq<byte>): Outcome {
    if input == [] then Overrun else Drive(e, input, 0, [], MAX_OUTDATA_SIZE, [])
  }

  function Chunks(calls: seq<Call>): seq<byte> {
    if calls == [] then [] else Chunks(calls[..|calls| - 1]) + calls[|calls| - 1].chunk
  }

  /** What the session has been given is exactly the input up to where the driver stands, whatever the session does. */
  lemma {:induction false} DriveFeedsInput(
      e: Engine, input: seq<byte>, pos: nat, calls: seq<Call>, capacity: nat, out: seq<byte>)
    requires pos < |input| && Chunks(calls) == input[..pos]
    ensures var r := Drive(e, input, pos, calls, capacity, out);
            Chunks(r.calls) <= input && (r.Done? ==> Chunks(r.calls) == input)
    decreases |input| - pos
  {
    if |input| <= pos + MAX_UPDATE_SIZE {
      var calls' := calls + [FinishCall(input, pos, |out|)];
      assert calls'[..|calls'| - 1] == calls;
      assert input[..pos] + input[pos..] == input;
    } else {
      var calls' := calls + [UpdateCall(input, pos, |out|, capacity)];
      assert calls'[..|calls'| - 1] == calls;
      assert input[..pos] + input[pos..pos + MAX_UPDATE_SIZE] == input[..pos + MAX_UPDATE_SIZE];
      match e.update(calls')
      case Refused(_) =>
      case Out(bytes) => DriveFeedsInput(e, input, pos + MAX_UPDATE_SIZE, calls', |bytes|, out + bytes);
    }
  }

  /** The area a call may write lies inside the first `limit` bytes. */
  predicate Inside(c: Call, limit: nat) { c.offset + c.capacity <= limit }

  /** Output `i + 1` begins where output `i` ends. */
  ghost predicate Follows(e: Engine, calls: seq<Call>, i: nat)
    requires i + 1 < |calls|
  {
    var a := e.update(calls[..i + 1]);
    a.Out? && calls[i + 1].offset == calls[i].offset + |a.bytes|
  }

  ghost predicate Contiguous(e: Engine, calls: seq<Call>) {
    forall i: nat | i + 1 < |calls| :: Follows(e, calls, i)
  }

  /** With a session that honours capacities, every area it may write lies inside four times the input. */
  lemma {:induction false} DriveStaysInside(
      e: Engine, input: seq<byte>, pos: nat, calls: seq<Call>, capacity: nat, out: seq<byte>)
    requires Honours(e) && pos < |input|
    requires capacity <= MAX_OUTDATA_SIZE && |out| <= TIMES * pos
    requires forall c | c in calls :: Inside(c, TIMES * |input|)
    ensures var r := Drive(e, input, pos, calls, capacity, out);
            && (forall c | c in r.calls :: Inside(c, TIMES * |input|))
            && (r.Done? ==> |r.out| <= TIMES * |input|)
    decreases |input| - pos
  {
    if |input| <= pos + MAX_UPDATE_SIZE {
      var calls' := calls + [FinishCall(input, pos, |out|)];
      assert Fits(e.finish(calls'), calls');
    } else {
      var calls' := calls + [UpdateCall(input, pos, |out|, capacity)];
      assert Fits(e.update(calls'), calls');
      match e.update(calls')
      case Refused(_) =>
      case Out(bytes) => DriveStaysInside(e, input, pos + MAX_UPDATE_SIZE, calls', |bytes|, out + bytes);
    }
  }

  /** The calls made so far are contiguous from offset 0 and the next output begins at `offset`. */
  ghost predicate Reached(e: Engine, calls: seq<Call>, offset: nat) {
    if calls == [] then offset == 0
    else
      && calls[0].offset == 0 && Contiguous(e, calls)
      && e.update(calls).Out? && offset == calls[|calls| - 1].offset + |e.update(calls).bytes|
  }

  /** Outputs are contiguous from the start of the buffer, and the final size is their sum. */
  lemma {:induction false} DriveIsContiguous(
      e: Engine, input: seq<byte>, pos: nat, calls: seq<Call>, capacity: nat, out: seq<byte>)
    requires pos < |input| && Reached(e, calls, |out|)
    ensures var r := Drive(e, input, pos, calls, capacity, out);
            && r.calls != [] && r.calls[0].offset == 0 && Contiguous(e, r.calls)
            && (r.Done? ==> e.finish(r.calls).Out? &&
                            |r.out| == r.calls[|r.calls| - 1].offset + |e.finish(r.calls).bytes|)
    decreases |input| - pos
  {
    if |input| <= pos + MAX_UPDATE_SIZE {
      ContiguousAppend(e, calls, FinishCall(input, pos, |out|));
    } else {
      var calls' := calls + [UpdateCall(input, pos, |out|, capacity)];
      ContiguousAppend(e, calls, UpdateCall(input, pos, |out|, capacity));
      match e.update(calls')
      case Refused(_) =>
      case Out(bytes) => DriveIsContiguous(e, input, pos + MAX_UPDATE_SIZE, calls', |bytes|, out + bytes);
    }
  }

  lemma ContiguousAppend(e: Engine, calls: seq<Call>, c: Call)
    requires Reached(e, calls, c.offset)
    ensures Contiguous(e, calls + [c]) && (calls + [c])[0].offset == 0
  {
    var calls' := calls + [c];
    forall i: nat | i + 1 < |calls'|
      ensures Follows(e, calls', i)
    {
      if i + 1 < |calls| {
        assert Follows(e, calls, i);
        assert calls'[..i + 1] == calls[..i + 1];
      } else {
        assert calls'[..i + 1] == calls;
      }
    }
  }

  /**
   The whole drive, for every session that honours the declared capacities: the chunks make up the input, the outputs
   are contiguous from offset 0, every area that may be written lies inside four times the input size, and the final
   size is the sum of the outputs.
   */
  lemma DriveContract(e: Engine, input: seq<byte>)
    requires Honours(e)
    ensures DriveAll(e, input).Overrun? <==> input == []
    ensures var r := DriveAll(e, input);
            !r.Overrun? ==>
            && r.calls != [] && r.calls[0].offset == 0 && Contiguous(e, r.calls)
            && Chunks(r.calls) <= input
            && (forall c | c in r.calls :: Inside(c, TIMES * |input|))
            && (r.Done? ==> && Chunks(r.calls) == input
                            && |r.out| <= TIMES * |input|
                            && e.finish(r.calls).Out?
                            && |r.out| == r.calls[|r.calls| - 1].offset + |e.finish(r.calls).bytes|)
  {
    if input != [] {
      assert input[..0] == [];
      DriveFeedsInput(e, input, 0, [], MAX_OUTDATA_SIZE, []);
      DriveStaysInside(e, input, 0, [], MAX_OUTDATA_SIZE, []);
      DriveIsContiguous(e, input, 0, [], MAX_OUTDATA_SIZE, []);
    }
  }

  // ---- the calls one by one ----

  /** The capacity declared after some calls: the size of the last output, and a whole buffer before the first one. */
  function Carried(e: Engine, calls: seq<Call>): nat {
    if calls == [] then MAX_OUTDATA_SIZE else match e.update(calls) case Out(bytes) => |bytes| case Refused(_) => 0
  }

  /** Call `i` is an update with a full chunk and the carried capacity. */
  ghost predicate IsUpdate(e: Engine, calls: seq<Call>, i: nat)
    requires i < |calls|
  {
    |calls[i].chunk| == MAX_UPDATE_SIZE && calls[i].capacity == Carried(e, calls[..i])
  }

  /** Call `i` is the finish with what is left, at most a chunk, and four times its size as capacity. */
  ghost predicate IsFinish(calls: seq<Call>, i: nat)
    requires i < |calls|
  {
    1 <= |calls[i].chunk| <= MAX_UPDATE_SIZE && calls[i].capacity == TIMES * |calls[i].chunk|
  }

  ghost predicate AllUpdates(e: Engine, calls: seq<Call>, n: nat)
    requires n <= |calls|
  {
    forall i | 0 <= i < n :: IsUpdate(e, calls, i)
  }

  lemma UpdatesAppend(e: Engine, calls: seq<Call>, c: Call)
    requires AllUpdates(e, calls, |calls|)
    ensures AllUpdates(e, calls + [c], |calls|)
    ensures |c.chunk| == MAX_UPDATE_SIZE && c.capacity == Carried(e, calls) ==>
              AllUpdates(e, calls + [c], |calls| + 1)
  {
    var all := calls + [c];
    assert all[..|calls|] == calls;
    assert forall i | 0 <= i < |calls| :: all[..i] == calls[..i] && all[i] == calls[i];
    forall i | 0 <= i < |calls| ensures IsUpdate(e, all, i) {
      assert IsUpdate(e, calls, i);
    }
  }

  lemma {:induction false} DriveCallsFrom(
      e: Engine, input: seq<byte>, pos: nat, calls: seq<Call>, capacity: nat, out: seq<byte>)
    requires pos < |input| && Chunks(calls) == input[..pos]
    requires AllUpdates(e, calls, |calls|) && capacity == Carried(e, calls)
    ensures var r := Drive(e, input, pos, calls, capacity, out);
            var n := |r.calls|;
            && n > 0 && AllUpdates(e, r.calls, n - 1)
            && (if Chunks(r.calls) == input then IsFinish(r.calls, n - 1) else r.Failed? && IsUpdate(e, r.calls, n - 1))
    decreases |input| - pos
  {
    if |input| <= pos + MAX_UPDATE_SIZE {
      var c := FinishCall(input, pos, |out|);
      UpdatesAppend(e, calls, c);
      assert (calls + [c])[..|calls|] == calls && input[..pos] + c.chunk == input;
    } else {
      var c := UpdateCall(input, pos, |out|, capacity);
      var calls' := calls + [c];
      UpdatesAppend(e, calls, c);
      assert calls'[..|calls|] == calls && input[..pos] + c.chunk == input[..pos + MAX_UPDATE_SIZE];
      match e.update(calls')
      case Refused(_) => assert |Chunks(calls')| < |input|;
      case Out(bytes) => DriveCallsFrom(e, input, pos + MAX_UPDATE_SIZE, calls', |bytes|, out + bytes);
    }
  }

  /**
   Every drive, whatever the session does: all calls but the last are updates of exactly one full chunk, each with the
   size of the output before it as its capacity; the finish gets the rest and four times its size.
   */
  lemma DriveCalls(e: Engine, input: seq<byte>)
    requires input != []
    ensures var r := DriveAll(e, input);
            var n := |r.calls|;
            && n > 0 && AllUpdates(e, r.calls, n - 1)
            && (if Chunks(r.calls) == input then IsFinish(r.calls, n - 1) else r.Failed? && IsUpdate(e, r.calls, n - 1))
  {
    assert input[..0] == [];
    DriveCallsFrom(e, input, 0, [], MAX_OUTDATA_SIZE, []);
  }

  // ---- AES-GCM (sections 7.1 and 7.2 of NIST SP 800-38D) ----

  /** Keystream by position, and the tag over the associated data and the ciphertext, both uninterpreted. */
  datatype Gcm = Gcm(keystream: nat -> byte, tag: seq<byte> -> seq<byte>)

  ghost predicate TagSize(g: Gcm) { forall c: seq<byte> :: |g.tag(c)| == AEAD_LEN }

  /** Counter-mode encryption and decryption of `data` at keystream position `pos`. */
  function Xor(g: Gcm, pos: nat, data: seq<byte>): (r: seq<byte>)
    ensures |r| == |data|
  {
    seq(|data|, i requires 0 <= i < |data| => data[i] ^ g.keystream(pos + i))
  }

  function OneShotEncrypt(g: Gcm, plain: seq<byte>): seq<byte> {
    Xor(g, 0, plain) + g.tag(Xor(g, 0, plain))
  }

  datatype Plain = Rejected | Accepted(plain: seq<byte>)

  function OneShotDecrypt(g: Gcm, cipher: seq<byte>, tag: seq<byte>): Plain {
    if g.tag(cipher) == tag then Accepted(Xor(g, 0, cipher)) else Rejected
  }

  function Bounded(bytes: seq<byte>, capacity: nat): Answer {
    if |bytes| <= capacity then Out(bytes) else Refused(HKS_ERROR_BUFFER_TOO_SMALL)
  }

  /** A counter-mode update: the keystream position is the amount of data already given. */
  function GcmUpdate(g: Gcm, calls: seq<Call>): Answer {
    if calls == [] then Refused(HKS_ERROR_INVALID_ARGUMENT) else
      var c := calls[|calls| - 1];
      Bounded(Xor(g, |Chunks(calls[..|calls| - 1])|, c.chunk), c.capacity)
  }

  /** The encrypting finish appends the tag of the whole ciphertext. */
  function EncryptFinish(g: Gcm, calls: seq<Call>): Answer {
    if calls == [] then Refused(HKS_ERROR_INVALID_ARGUMENT) else
      var c := calls[|calls| - 1];
      Bounded(Xor(g, |Chunks(calls[..|calls| - 1])|, c.chunk) + g.tag(Xor(g, 0, Chunks(calls))), c.capacity)
  }

  /** The decrypting finish compares the tag of the whole ciphertext with the given one. */
  function DecryptFinish(g: Gcm, tag: seq<byte>, calls: seq<Call>): Answer {
    if calls == [] then Refused(HKS_ERROR_INVALID_ARGUMENT) else
      var c := calls[|calls| - 1];
      if g.tag(Chunks(calls)) != tag then Refused(HKS_ERROR_CRYPTO_ENGINE_ERROR)
      else Bounded(Xor(g, |Chunks(calls[..|calls| - 1])|, c.chunk), c.capacity)
  }

  function Encryptor(g: Gcm): Engine {
    Engine(calls => GcmUpdate(g, calls), calls => EncryptFinish(g, calls))
  }

  function Decryptor(g: Gcm, tag: seq<byte>): Engine {
    Engine(calls => GcmUpdate(g, calls), calls => DecryptFinish(g, tag, calls))
  }

  lemma GcmHonours(g: Gcm, tag: seq<byte>)
    ensures Honours(Encryptor(g)) && Honours(Decryptor(g, tag))
  {
    forall calls: seq<Call> | calls != []
      ensures Fits(GcmUpdate(g, calls), calls)
      ensures Fits(EncryptFinish(g, calls), calls) && Fits(DecryptFinish(g, tag, calls), calls)
    {
    }
  }

  lemma XorSplit(g: Gcm, pos: nat, a: seq<byte>, b: seq<byte>)
    ensures Xor(g, pos, a + b) == Xor(g, pos, a) + Xor(g, pos + |a|, b)
  {
  }

  lemma XorTwice(g: Gcm, pos: nat, data: seq<byte>)
    ensures Xor(g, pos, Xor(g, pos, data)) == data
  {
  }

  /** The size of the chunk that `finish` gets. */
  function LastChunk(n: nat): (k: nat)
    requires n >= 1
    ensures 1 <= k <= MAX_UPDATE_SIZE && (n - k) % MAX_UPDATE_SIZE == 0
  {
    (n - 1) % MAX_UPDATE_SIZE + 1
  }

  /** The finish capacity holds the last chunk and the tag. */
  predicate TagFits(n: nat)
    requires n >= 1
  {
    LastChunk(n) + AEAD_LEN <= LastChunk(n) * TIMES
  }

  /** That is so exactly when the last chunk has at least six bytes. */
  lemma TagFitsIff(n: nat)
    requires n >= 1
    ensures TagFits(n) <==> LastChunk(n) >= 6
  {
  }

  ghost predicate Midway(g: Gcm, input: seq<byte>, pos: nat, calls: seq<Call>, capacity: nat, out: seq<byte>) {
    && pos < |input| && pos % MAX_UPDATE_SIZE == 0
    && Chunks(calls) == input[..pos] && out == Xor(g, 0, input[..pos])
    && MAX_UPDATE_SIZE <= capacity
  }

  /** One chunk further the driver is midway again. */
  lemma MidwayStep(g: Gcm, input: seq<byte>, pos: nat, calls: seq<Call>, capacity: nat, out: seq<byte>)
    requires Midway(g, input, pos, calls, capacity, out) && pos + MAX_UPDATE_SIZE < |input|
    ensures var calls' := calls + [UpdateCall(input, pos, |out|, capacity)];
            var a := GcmUpdate(g, calls');
            && a.Out?
            && Midway(g, input, pos + MAX_UPDATE_SIZE, calls', |a.bytes|, out + a.bytes)
  {
    var c := UpdateCall(input, pos, |out|, capacity);
    var calls' := calls + [c];
    assert calls'[..|calls'| - 1] == calls;
    assert input[..pos] + c.chunk == input[..pos + MAX_UPDATE_SIZE];
    XorSplit(g, 0, input[..pos], c.chunk);
  }

  lemma AtFinish(g: Gcm, input: seq<byte>, pos: nat, calls: seq<Call>, capacity: nat, out: seq<byte>)
    requires Midway(g, input, pos, calls, capacity, out) && |input| <= pos + MAX_UPDATE_SIZE
    ensures var calls' := calls + [FinishCall(input, pos, |out|)];
            && Chunks(calls') == input && calls'[..|calls'| - 1] == calls
            && out + Xor(g, pos, input[pos..]) == Xor(g, 0, input)
            && |input| - pos == LastChunk(|input|)
  {
    var calls' := calls + [FinishCall(input, pos, |out|)];
    assert calls'[..|calls'| - 1] == calls;
    assert input[..pos] + input[pos..] == input;
    XorSplit(g, 0, input[..pos], input[pos..]);
  }

  lemma {:induction false} DriveEncrypts(
      g: Gcm, input: seq<byte>, pos: nat, calls: seq<Call>, capacity: nat, out: seq<byte>)
    requires TagSize(g) && Midway(g, input, pos, calls, capacity, out)
    ensures var r := Drive(Encryptor(g), input, pos, calls, capacity, out);
            && (r.Done? <==> TagFits(|input|))
            && (r.Done? ==> r.out == OneShotEncrypt(g, input))
    decreases |input| - pos
  {
    if |input| <= pos + MAX_UPDATE_SIZE {
      AtFinish(g, input, pos, calls, capacity, out);
    } else {
      MidwayStep(g, input, pos, calls, capacity, out);
      var calls' := calls + [UpdateCall(input, pos, |out|, capacity)];
      var bytes := GcmUpdate(g, calls').bytes;
      DriveEncrypts(g, input, pos + MAX_UPDATE_SIZE, calls', |bytes|, out + bytes);
    }
  }

  lemma {:induction false} DriveDecrypts(
      g: Gcm, tag: seq<byte>, input: seq<byte>, pos: nat, calls: seq<Call>, capacity: nat, out: seq<byte>)
    requires Midway(g, input, pos, calls, capacity, out)
    ensures var r := Drive(Decryptor(g, tag), input, pos, calls, capacity, out);
            && (r.Done? <==> g.tag(input) == tag)
            && (r.Done? ==> r.out == Xor(g, 0, input))
    decreases |input| - pos
  {
    if |input| <= pos + MAX_UPDATE_SIZE {
      AtFinish(g, input, pos, calls, capacity, out);
    } else {
      MidwayStep(g, input, pos, calls, capacity, out);
      var calls' := calls + [UpdateCall(input, pos, |out|, capacity)];
      var bytes := GcmUpdate(g, calls').bytes;
      DriveDecrypts(g, tag, input, pos + MAX_UPDATE_SIZE, calls', |bytes|, out + bytes);
    }
  }

  /** Driving a GCM session over chunks gives what one-shot AES-GCM gives, or fails: both ways, for every input. */
  lemma ChunkedIsOneShot(g: Gcm, input: seq<byte>, tag: seq<byte>)
    requires TagSize(g) && input != []
    ensures var r := DriveAll(Encryptor(g), input);
            (r.Done? <==> LastChunk(|input|) >= 6) && (r.Done? ==> r.out == OneShotEncrypt(g, input))
    ensures var r := DriveAll(Decryptor(g, tag), input);
            OneShotDecrypt(g, input, tag) == if r.Done? then Accepted(r.out) else Rejected
  {
    assert input[..0] == [];
    DriveEncrypts(g, input, 0, [], MAX_OUTDATA_SIZE, []);
    DriveDecrypts(g, tag, input, 0, [], MAX_OUTDATA_SIZE, []);
    TagFitsIff(|input|);
  }

  // ---- the two key operations ----

  /** `Encrypt` with the parameter set built and the session opened; without a value the outcome is not defined. */
  function Encrypt(g: Gcm, key: seq<byte>): Option<seq<byte>> {
    match DriveAll(Encryptor(g), key)
    case Done(out, _) => Some(out)
    case Failed(_) => Some([])
    case Overrun => None
  }

  /** `Decrypt`: the last sixteen bytes are the tag, the rest is the ciphertext; with fewer the sizes wrap. */
  function Decrypt(g: Gcm, source: seq<byte>): Option<seq<byte>> {
    if |source| < AEAD_LEN then None else
      var n := |source| - AEAD_LEN;
      match DriveAll(Decryptor(g, source[n..]), source[..n])
      case Done(out, _) => Some(out)
      case Failed(_) => Some([])
      case Overrun => None
  }

  /** The last chunk of `n` bytes leaves room for the tag. */
  predicate Survives(n: nat) { n > 0 && LastChunk(n) >= 6 }

  /** A key survives encryption and decryption exactly when its last chunk has at least six bytes. */
  lemma KeyRoundTrip(g: Gcm, key: seq<byte>)
    requires TagSize(g)
    ensures (Encrypt(g, key).Some? && Decrypt(g, Encrypt(g, key).value) == Some(key)) <==> Survives(|key|)
    ensures Encrypt(g, key) ==
            if key == [] then None else Some(if Survives(|key|) then OneShotEncrypt(g, key) else [])
  {
    if key != [] {
      ChunkedIsOneShot(g, key, []);
      if Survives(|key|) {
        var cipher := Xor(g, 0, key);
        var source := Encrypt(g, key).value;
        assert source == cipher + g.tag(cipher);
        assert source[..|key|] == cipher && source[|key|..] == g.tag(cipher);
        ChunkedIsOneShot(g, cipher, g.tag(cipher));
        XorTwice(g, 0, key);
      }
    }
  }
}
