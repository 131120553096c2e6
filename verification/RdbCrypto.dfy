/**
 The driver on buffers: input and output cursors advance, the output size is carried from call to call.
 */
module RdbCrypto {
  import opened CryptSpec
  import opened Options

  /** The session writes its answer at a position of the output buffer. */
  method WriteAt(buffer: array<byte>, offset: nat, bytes: seq<byte>)
    requires offset + |bytes| <= buffer.Length
    modifies buffer
    ensures buffer[..] == old(buffer[..offset]) + bytes + old(buffer[offset + |bytes|..])
  {
    var i := 0;
    while i < |bytes|
      invariant 0 <= i <= |bytes|
      invariant buffer[..offset] == old(buffer[..offset])
      invariant buffer[offset..offset + i] == bytes[..i]
      invariant buffer[offset + |bytes|..] == old(buffer[offset + |bytes|..])
    {
      buffer[offset + i] := bytes[i];
      i := i + 1;
    }
    assert buffer[..] == buffer[..offset] + buffer[offset..offset + |bytes|] + buffer[offset + |bytes|..];
  }

  /**
   `size` is the declared size of `outData` on entry and the number of bytes produced on return.
   The byte counts are 32-bit in the source, which is why four times the input has to stay below 2^32.
   Without a code the outcome is not defined: an empty input makes the finish call read a chunk that is not there.
   */
  method HksLoopUpdate(e: Engine, inData: array<byte>, outData: array<byte>, declared: nat)
    returns (code: Option<int>, size: nat)
    requires Honours(e) && TIMES * inData.Length < 0x1_0000_0000
    requires inData != outData && declared <= outData.Length
    modifies outData
    ensures declared < TIMES * inData.Length ==>
              code == Some(HKS_ERROR_INVALID_ARGUMENT) && size == declared && outData[..] == old(outData[..])
    ensures declared >= TIMES * inData.Length ==>
              match DriveAll(e, inData[..])
              case Done(out, _) =>
                code == Some(HKS_SUCCESS) && size == |out| <= outData.Length && outData[..size] == out
              case Failed(_) => code == Some(HKS_FAILURE)
              case Overrun => code == None && inData.Length == 0
    ensures code != None ==> forall i | TIMES * inData.Length <= i < outData.Length :: outData[i] == old(outData[i])
  {
    var n := inData.Length;
    if declared < n * TIMES {
      return Some(HKS_ERROR_INVALID_ARGUMENT), declared;
    }
    if n == 0 {
      return None, 0;
    }
    ghost var input := inData[..];
    var pos, end, inputSize := 0, n - 1, MAX_UPDATE_SIZE;
    size := 0;
    var outputSize: nat := MAX_OUTDATA_SIZE;
    var history: seq<Call> := [];
    while pos <= end
      invariant 0 <= pos <= end && input == inData[..]
      invariant size <= TIMES * pos && outputSize <= MAX_OUTDATA_SIZE
      invariant Drive(e, input, pos, history, outputSize, outData[..size]) == DriveAll(e, input)
      invariant forall i | TIMES * n <= i < outData.Length :: outData[i] == old(outData[i])
    {
      if pos + MAX_UPDATE_SIZE > end {
        inputSize := end - pos + 1;
        break;
      }
      history := history + [Call(inData[pos..pos + MAX_UPDATE_SIZE], size, outputSize)];
      assert Fits(e.update(history), history);
      var answer := e.update(history);
      if answer.Refused? {
        return Some(HKS_FAILURE), size;
      }
      ghost var before := outData[..size];
      WriteAt(outData, size, answer.bytes);
      assert outData[..size + |answer.bytes|] == before + answer.bytes;
      outputSize := |answer.bytes|;
      size := size + outputSize;
      pos := pos + MAX_UPDATE_SIZE;
    }
    outputSize := inputSize * TIMES;
    assert inData[pos..pos + inputSize] == input[pos..];
    history := history + [Call(inData[pos..pos + inputSize], size, outputSize)];
    assert Fits(e.finish(history), history);
    var answer := e.finish(history);
    if answer.Refused? {
      return Some(HKS_FAILURE), size;
    }
    ghost var before := outData[..size];
    WriteAt(outData, size, answer.bytes);
    assert outData[..size + |answer.bytes|] == before + answer.bytes;
    return Some(HKS_SUCCESS), size + |answer.bytes|;
  }

  method ToArray(bytes: seq<byte>) returns (a: array<byte>)
    ensures fresh(a) && a[..] == bytes
  {
    a := new byte[|bytes|](i requires 0 <= i < |bytes| => bytes[i]);
  }

  /** `ready` says that the parameter set could be built and the session opened. */
  method EncryptKey(g: Gcm, key: seq<byte>, ready: bool) returns (encrypted: Option<seq<byte>>)
    requires TagSize(g) && TIMES * |key| + 1 < 0x1_0000_0000
    ensures encrypted == if ready then Encrypt(g, key) else Some([])
    ensures encrypted.Some? ==> encrypted.value == if ready && Survives(|key|) then OneShotEncrypt(g, key) else []
  {
    KeyRoundTrip(g, key);
    if !ready {
      return Some([]);
    }
    GcmHonours(g, []);
    var plain := ToArray(key);
    var buffer := new byte[|key| * TIMES + 1];
    var code, size := HksLoopUpdate(Encryptor(g), plain, buffer, buffer.Length);
    if code == None {
      return None;
    }
    if code != Some(HKS_SUCCESS) {
      return Some([]);
    }
    return Some(buffer[..size]);
  }

  method DecryptKey(g: Gcm, source: seq<byte>, ready: bool) returns (key: Option<seq<byte>>)
    requires TagSize(g) && TIMES * |source| + 1 < 0x1_0000_0000
    ensures key == if ready || |source| < AEAD_LEN then Decrypt(g, source) else Some([])
    ensures AEAD_LEN < |source| ==>
            var n := |source| - AEAD_LEN;
            key == match OneShotDecrypt(g, source[..n], source[n..])
                   case Accepted(plain) => Some(if ready then plain else [])
                   case Rejected => Some([])
  {
    if |source| < AEAD_LEN {
      return None;
    }
    var n := |source| - AEAD_LEN;
    if n > 0 { ChunkedIsOneShot(g, source[..n], source[n..]); }
    if !ready {
      return Some([]);
    }
    GcmHonours(g, source[n..]);
    var cipher := ToArray(source[..n]);
    var buffer := new byte[n * TIMES + 1];
    var code, size := HksLoopUpdate(Decryptor(g, source[n..]), cipher, buffer, buffer.Length);
    if code == None {
      return None;
    }
    if code != Some(HKS_SUCCESS) {
      return Some([]);
    }
    return Some(buffer[..size]);
  }
}
