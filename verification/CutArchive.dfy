/** The archive calls of a run of rapido-cut and the names they archive. */
module CutArchive {
  import opened Newc
  import opened ArchiveName
  import opened Cpio
  import opened HostFs
  import opened Gather

  function Calls(log: seq<LogEntry>): seq<Call> { seq(|log|, i requires 0 <= i < |log| => log[i].call) }

  /** An archived name has the components of the destination it was archived for. */
  lemma {:induction false} NameComponents(e: LogEntry)
    requires e.call.path == Render(e.dst) && CompsOk(e.dst.comps)
    ensures Components(Name(e.call)) == e.dst.comps
  {
    hide StripDot, StripRoot;
    TrimKeepsComponents(e.call.path);
    RenderParses(e.dst.comps);
    if e.dst.comps == [] { RootComponents(); }
  }

  lemma RootComponents()
    ensures Components([SLASH]) == []
  {
    var s: Bytes := [SLASH];
    assert s[1..] == [];
    assert ComponentsFrom(s, []) == Own([]) + ComponentsFrom(s[1..], []);
  }
}
