/**
 The marshallers and parsers as they run, back to back: a message written to a fresh buffer and read
 into a fresh message arrives EqualVT to the one sent.
 */
module EndToEnd {
  import opened Prelude
  import opened Varint
  import opened Wire
  import opened Messages
  import opened Parser
  import opened RoundTrip
  import opened Marshallers
  import opened Unmarshal

  method SendWrite(skip: Skipper, w: WriteRequest) returns (r: WriteRequest)
    requires SkipContract(skip) && Sound(skip, Write(w)) && |EncodeWrite(w)| <= MAX_BUFFER
    ensures EqualWrite(r, w)
  {
    hide SkipContract, Sound, EncodeWrite, Parse, EqualWrite;
    var dAtA := MarshalWriteVT(w);
    var receiver := new Receiver(Write(EMPTY_WRITE));
    var err := receiver.UnmarshalVT(skip, dAtA[..]);
    WriteRoundTrip(skip, w);
    r := receiver.m.write;
  }

  method SendPutResponse(skip: Skipper, p: PutResponse) returns (r: PutResponse)
    requires SkipContract(skip) && Sound(skip, PutResp(p)) && |EncodePutResponse(p)| <= MAX_BUFFER
    ensures EqualPutResponse(r, p)
  {
    hide SkipContract, Sound, EncodePutResponse, Parse;
    var dAtA := MarshalPutResponseVT(p);
    var receiver := new Receiver(PutResp(EMPTY_PUT_RESPONSE));
    var err := receiver.UnmarshalVT(skip, dAtA[..]);
    PutResponseRoundTrip(skip, p);
    r := receiver.m.putResponse;
  }

  method SendBatch(skip: Skipper, b: NotificationBatch) returns (r: NotificationBatch)
    requires SkipContract(skip) && Sound(skip, Batch(b)) && BatchSize(b) <= MAX_BUFFER
    ensures EqualBatch(r, b)
  {
    hide SkipContract, Sound, EncodeBatch, Parse, EqualBatch, BatchSize;
    var dAtA, ks := MarshalBatchVT(b);
    BatchSizeOfAnyOrder(b, ks);
    var receiver := new Receiver(Batch(EMPTY_BATCH));
    var err := receiver.UnmarshalVT(skip, dAtA[..]);
    BatchRoundTrip(skip, b, ks);
    r := receiver.m.batch;
  }
}
