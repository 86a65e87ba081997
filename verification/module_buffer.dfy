/** The hello-world LLEXT module: an artifact type whose payload is
    collected chunk by chunk into one heap buffer, loaded and run when the
    deployment reaches the installing state, and released afterwards. */
module HelloWorldModule {
  import opened MenderTypes

  /** hello_world_module_data together with hello_world_module_size.
      Released is the NULL pointer with size 0; Held(bytes) is an allocated
      block whose size variable equals |bytes| (the block may be empty when
      a zero-length chunk arrived first). */
  datatype Buffer = Released | Held(bytes: seq<byte>)

  /** The bytes collected so far; a released buffer holds none. */
  function Contents(b: Buffer): seq<byte>
  {
    if b.Held? then b.bytes else []
  }

  datatype ChunkReply = ChunkReply(buffer: Buffer, ret: MenderErr)

  /** hello_world_module_cb. `data` is None when the client passes a NULL
      data pointer; otherwise it is the chunk, whose length is the `length`
      argument. `reallocOk` is whether realloc() returned a block. */
  function OnChunk(b: Buffer, data: Option<seq<byte>>, reallocOk: bool): (r: ChunkReply)
    // a NULL chunk is ignored
    ensures data.None? ==> r == ChunkReply(b, MenderOk)
    // a stored chunk lands after everything collected before it
    ensures data.Some? && reallocOk ==>
              r.buffer.Held? && Contents(r.buffer) == Contents(b) + data.value && r.ret == MenderOk
    ensures data.Some? && reallocOk ==> |Contents(r.buffer)| == |Contents(b)| + |data.value|
    // an allocation failure throws away everything collected so far
    ensures data.Some? && !reallocOk ==> r == ChunkReply(Released, MenderFail)
  {
    match data
    case None => ChunkReply(b, MenderOk)
    case Some(chunk) =>
      if reallocOk then ChunkReply(Held(Contents(b) + chunk), MenderOk)
      else ChunkReply(Released, MenderFail)
  }

  /** The deployment states the client reports (mender_deployment_status_t). */
  datatype DeploymentStatus = Downloading | Installing | Rebooting | Success | Failure | AlreadyInstalled

  /** `loaded` is the image handed to llext_load(), if it was called. */
  datatype StatusReply = StatusReply(buffer: Buffer, ret: MenderErr, loaded: Option<seq<byte>>)

  /** Whether the deployment-status callback acts on the buffer at all: the
      module support is built in, the pointer is not NULL and the size is not 0. */
  predicate HoldsModule(llext: bool, b: Buffer)
  {
    llext && b.Held? && |b.bytes| != 0
  }

  /** The module part of deployment_status_cb. `llext` says whether LLEXT
      support is built in; `loadOk` is whether llext_load() returns 0. */
  function OnDeploymentStatus(llext: bool, b: Buffer, status: DeploymentStatus, loadOk: bool): (r: StatusReply)
    // installing loads exactly the collected image, then frees it
    ensures HoldsModule(llext, b) && status == Installing ==>
              r.loaded == Some(Contents(b)) && r.buffer == Released
    // and fails only when the load fails
    ensures HoldsModule(llext, b) && status == Installing ==> (r.ret == MenderFail <==> !loadOk)
    // a failed deployment frees the image without loading it
    ensures HoldsModule(llext, b) && status == Failure ==>
              r == StatusReply(Released, MenderOk, None)
    // nothing else touches the buffer or fails
    ensures !HoldsModule(llext, b) || (status != Installing && status != Failure) ==>
              r == StatusReply(b, MenderOk, None)
    ensures r.ret == MenderOk || r.ret == MenderFail
  {
    if !HoldsModule(llext, b) then StatusReply(b, MenderOk, None)
    else if status == Installing then
      StatusReply(Released, if loadOk then MenderOk else MenderFail, Some(b.bytes))
    else if status == Failure then StatusReply(Released, MenderOk, None)
    else StatusReply(b, MenderOk, None)
  }

  /** All chunks of a download, back to back. */
  function Concat(chunks: seq<seq<byte>>): seq<byte>
  {
    if chunks == [] then [] else chunks[0] + Concat(chunks[1..])
  }

  /** The buffer after a run of non-NULL chunks all of whose reallocations succeed. */
  function Feed(b: Buffer, chunks: seq<seq<byte>>): Buffer
    decreases |chunks|
  {
    if chunks == [] then b
    else Feed(OnChunk(b, Some(chunks[0]), true).buffer, chunks[1..])
  }

  /** Without allocation failures the buffer is the old contents followed by
      every chunk, in arrival order. */
  lemma {:induction false} FeedAppendsAll(b: Buffer, chunks: seq<seq<byte>>)
    ensures Contents(Feed(b, chunks)) == Contents(b) + Concat(chunks)
    ensures chunks != [] ==> Feed(b, chunks).Held?
    decreases |chunks|
  {
    if chunks != [] {
      var b' := OnChunk(b, Some(chunks[0]), true).buffer;
      FeedAppendsAll(b', chunks[1..]);
      assert Contents(b) + Concat(chunks) == Contents(b) + chunks[0] + Concat(chunks[1..]);
    }
  }

  /** A whole download into an empty buffer followed by the installing
      status: the loader receives exactly the concatenated payload, and the
      memory is freed whatever the load's outcome. */
  lemma DownloadThenInstall(chunks: seq<seq<byte>>, loadOk: bool)
    requires Concat(chunks) != []
    ensures var r := OnDeploymentStatus(true, Feed(Released, chunks), Installing, loadOk);
            r.loaded == Some(Concat(chunks)) && r.buffer == Released
  {
    FeedAppendsAll(Released, chunks);
    assert Contents(Released) + Concat(chunks) == Concat(chunks);
    assert HoldsModule(true, Feed(Released, chunks));
  }
}
