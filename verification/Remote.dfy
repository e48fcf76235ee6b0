/** Tasks, worker messages and error codes (src/remote/task.go, src/remote/worker.go). */
module Remote {
  import opened Basics

  type Host = string

  const ERR_MAC_OS_EXIT := 32500
  const ERR_FORCE_STOP := 32501
  const ERR_COPY_FAILED := 32502

  datatype Stream = Stdout | Stderr | Debug

  /** What a worker sends on the shared data channel. */
  datatype Output =
    | Chunk(stream: Stream, host: Host, data: string)
    | CopyFinished(host: Host, code: int)
    | ExecFinished(host: Host, code: int)

  datatype Piece = Piece(stream: Stream, data: string)

  /** A remote process as its worker sees it: one round of forwarded pieces per turn of the read
      loop, the last round followed by the exit of the process. The stop buffer is polled once
      before each round. */
  datatype Script =
    | Last(round: seq<Piece>, code: int)
    | More(round: seq<Piece>, rest: Script)

  datatype Task = Task(host: Host, copy: Option<Script>, exec: Option<Script>)

  function Emit(h: Host, round: seq<Piece>): (out: seq<Output>)
    ensures |out| == |round|
    ensures forall i | 0 <= i < |out| :: out[i] == Chunk(round[i].stream, h, round[i].data)
  {
    seq(|round|, i requires 0 <= i < |round| => Chunk(round[i].stream, h, round[i].data))
  }
}
