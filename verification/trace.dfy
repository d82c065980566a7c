/** What a run of the interpreter leaves behind: the lines it printed (as
    events), the instance fields it changed, and how it ended. */
module Trace {
  import opened Outcomes
  import opened Bytes

  /** One printed line. Names are the decoded bytes. */
  datatype Event =
    | Label(name: seq<byte>)               // the volume label line, with the unstripped name
    | Folder(name: seq<byte>)              // a folder heading, name without trailing blanks
    | File(name: seq<byte>, ext: seq<byte>) // a file heading: stripped name and extension
    | Excerpt(text: seq<byte>)             // the indented first line of a file's contents

  /** Exceptions propagate to the top in both copies: a run either finishes
      or stops at the first exception. */
  datatype Status = Completed | Raised(error: Error)

  /** The interpreter's mutable instance fields: the chain memo
      (`linked_list`), `disk_name`, and the output printed so far. */
  datatype State<K(==), V> = State(memo: map<K, V>, diskName: seq<byte>, trace: seq<Event>)

  /** The state at the point a run finished or raised, and how it ended. */
  datatype Run<K(==), V> = Run(state: State<K, V>, status: Status)

  /** `disk_name` before any label is seen: 'nope'. */
  const Nope: seq<byte> := [0x6E, 0x6F, 0x70, 0x65]

  /** The fields as `__init__` sets them. */
  function Initial<K(==), V>(): State<K, V> {
    State(map[], Nope, [])
  }

  function Emit<K(==), V>(st: State<K, V>, e: Event): State<K, V> {
    st.(trace := st.trace + [e])
  }

  /** The file branch of `read_cluster` in both copies: print the bytes of
      the cluster before its first newline, which must decode. */
  function PrintExcerpt<K(==), V>(st: State<K, V>, cluster: seq<byte>): (r: Run<K, V>)
    ensures r.status.Raised? ==> r.state == st
    ensures r.status == Raised(NoNewline) <==> Newline !in cluster
    ensures r.status == Completed ==>
      && |r.state.trace| == |st.trace| + 1
      && r.state == Emit(st, r.state.trace[|st.trace|])
      && r.state.trace[|st.trace|].Excerpt?
      && var text := r.state.trace[|st.trace|].text;
         Newline !in text && text + [Newline] <= cluster
  {
    var end := LineEnd(cluster);
    if end.Failure? then Run(st, Raised(end.error))
    else
      var text := Decode(cluster[..end.value]);
      if text.Failure? then Run(st, Raised(text.error))
      else
        assert cluster[..end.value] + [Newline] == cluster[..end.value + 1];
        Run(Emit(st, Excerpt(text.value)), Completed)
  }

  /** r is what printing the first line of `cluster` from st gives: the
      bytes before the first newline, which must decode, become one more
      event; a missing newline raises ValueError and a line that does not
      decode raises UnicodeDecodeError; the memo and `disk_name` do not
      change. */
  ghost predicate FirstLinePrinted<K, V>(r: Run<K, V>, st: State<K, V>, cluster: seq<byte>) {
    && r.state.memo == st.memo
    && r.state.diskName == st.diskName
    && (r.status == Raised(NoNewline) <==> Newline !in cluster)
    && (r.status == Completed <==> LineEnd(cluster).Success? && IsAscii(cluster[..LineEnd(cluster).value]))
    && (LineEnd(cluster).Success? && !IsAscii(cluster[..LineEnd(cluster).value]) ==> r.status == Raised(DecodeError))
    && (r.status == Completed ==> r.state.trace == st.trace + [Excerpt(cluster[..LineEnd(cluster).value])])
    && (r.status != Completed ==> r.state.trace == st.trace)
  }

  /** PrintExcerpt prints exactly the first line. */
  lemma ExcerptOutcome<K, V>(st: State<K, V>, cluster: seq<byte>)
    ensures FirstLinePrinted(PrintExcerpt(st, cluster), st, cluster)
  {
  }
}
