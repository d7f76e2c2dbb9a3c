/**
 * The decision logic of ReactiveTfClient: which IDE file events make the
 * external TF client invalidate which paths, the version check, and the
 * conversion of a pending-changes query to and from the connector's model.
 * The connection, the process, the scheduler and the asynchronous
 * composition are left out; results arrive as already-resolved values.
 */
module ReactiveTfClient {
  import opened Common
  import opened Paths
  import Decimal

  /** A local path as the connector's model carries it: a path string. */
  datatype TfsLocalPath = TfsLocalPath(path: string)

  /** An IDE virtual file; only its path string is used. */
  datatype VirtualFile = VirtualFile(path: string)

  /** The IDE file-system events the client listens to. */
  datatype FileEvent =
    | PropertyChanged(file: VirtualFile)
    | ContentsChanged(file: VirtualFile)
    | FileCreated(file: VirtualFile)
    | FileDeleted(file: VirtualFile)
    | FileMoved(file: VirtualFile, oldParent: VirtualFile, newParent: VirtualFile)
    | FileCopied(file: VirtualFile, originalFile: VirtualFile)

  /** The reactive client's version; it is never inspected. */
  datatype VersionNumber = VersionNumber(major: int, minor: int)

  /** A pending change as the connector reports it. */
  datatype TfsPendingChange = TfsPendingChange(
    serverItem: string, localItem: string, version: Decimal.Int32, owner: string,
    date: string, lock: string, changeTypes: seq<string>, workspace: string,
    computer: string, isCandidate: bool, sourceItem: string)

  /** A pending change as the plugin uses it; `S` is the plugin's change-type enumeration. */
  datatype PendingChange<S> = PendingChange(
    serverItem: string, localItem: string, version: string, owner: string,
    date: string, lock: string, changeTypes: seq<S>, workspace: string,
    computer: string, isCandidate: bool, sourceItem: string)

  /** Whether some mapped path is a component-wise prefix of `filePath` (Stream.anyMatch). */
  function AnyMappingContains(filePath: Path, mappedPaths: seq<TfsLocalPath>): (matched: bool)
    ensures matched <==> exists i :: 0 <= i < |mappedPaths| && StartsWith(filePath, Parse(mappedPaths[i].path))
    decreases |mappedPaths|
  {
    if mappedPaths == [] then false
    else if StartsWith(filePath, Parse(mappedPaths[0].path)) then true
    else
      assert forall i :: 1 <= i < |mappedPaths| ==> mappedPaths[i] == mappedPaths[1..][i - 1];
      AnyMappingContains(filePath, mappedPaths[1..])
  }

  /**
   * notifyFileChange: the invalidation request sent for a changed file,
   * given the collection's mapped paths (None while they are unknown).
   * At most one request is made, for the file's own path string, and only
   * when some mapped path contains the file.
   */
  function NotifyFileChange(file: VirtualFile, mappedPaths: Option<seq<TfsLocalPath>>): (invalidation: Option<TfsLocalPath>)
    ensures mappedPaths.None? ==> invalidation.None?
    ensures invalidation.Some? <==>
      mappedPaths.Some? && exists i :: 0 <= i < |mappedPaths.value| && StartsWith(Parse(file.path), Parse(mappedPaths.value[i].path))
    ensures invalidation.Some? ==> invalidation.value == TfsLocalPath(file.path)
  {
    if mappedPaths.None? then None
    else if AnyMappingContains(Parse(file.path), mappedPaths.value) then Some(TfsLocalPath(file.path))
    else None
  }

  /** The files the listener passes to notifyFileChange for an event, in order. */
  function NotifiedFiles(event: FileEvent): seq<VirtualFile>
  {
    match event
    case FileMoved(_, oldParent, newParent) => [oldParent, newParent]
    case _ => [event.file]
  }

  /** The requests one notifyFileChange call sends: none or one. */
  function Sent(invalidation: Option<TfsLocalPath>): (requests: seq<TfsLocalPath>)
    ensures |requests| <= 1 && forall r :: r in requests <==> invalidation == Some(r)
  {
    if invalidation.Some? then [invalidation.value] else []
  }

  /** The invalidation requests sent while notifying `files` one after the other. */
  function Invalidations(files: seq<VirtualFile>, mappedPaths: Option<seq<TfsLocalPath>>): (requests: seq<TfsLocalPath>)
    ensures |requests| <= |files|
    ensures mappedPaths.None? ==> requests == []
    ensures forall r :: r in requests ==>
      exists f :: f in files && NotifyFileChange(f, mappedPaths) == Some(r)
    decreases |files|
  {
    if files == [] then []
    else Sent(NotifyFileChange(files[0], mappedPaths)) + Invalidations(files[1..], mappedPaths)
  }

  /** The invalidation requests one IDE event leads to (the listener of addFileSystemListener). */
  function OnFileEvent(event: FileEvent, mappedPaths: Option<seq<TfsLocalPath>>): seq<TfsLocalPath>
  {
    Invalidations(NotifiedFiles(event), mappedPaths)
  }

  /** A move notifies the old parent and then the new parent. */
  lemma MoveNotifiesParents(event: FileEvent, mappedPaths: Option<seq<TfsLocalPath>>)
    requires event.FileMoved?
    ensures OnFileEvent(event, mappedPaths)
         == Sent(NotifyFileChange(event.oldParent, mappedPaths))
          + Sent(NotifyFileChange(event.newParent, mappedPaths))
  {
    var files := NotifiedFiles(event);
    assert files == [event.oldParent, event.newParent];
    assert files[1..] == [event.newParent] && files[1..][1..] == [];
    var last := Sent(NotifyFileChange(event.newParent, mappedPaths));
    assert Invalidations(files[1..], mappedPaths) == last + [] == last;
  }

  /** Every other event notifies the event's own file once: at most one request, for that file's path. */
  lemma OtherEventsNotifyFile(event: FileEvent, mappedPaths: Option<seq<TfsLocalPath>>)
    requires !event.FileMoved?
    ensures OnFileEvent(event, mappedPaths) == Sent(NotifyFileChange(event.file, mappedPaths))
    ensures |OnFileEvent(event, mappedPaths)| <= 1
  {
    assert NotifiedFiles(event)[1..] == [];
  }

  /**
   * Whatever the event, every request names a notified file's own path, and
   * that file lies under a mapped path; with the mapped paths unknown no
   * request is sent at all.
   */
  lemma EventRequestsAreMapped(event: FileEvent, mappedPaths: Option<seq<TfsLocalPath>>)
    ensures mappedPaths.None? ==> OnFileEvent(event, mappedPaths) == []
    ensures forall r :: r in OnFileEvent(event, mappedPaths) ==>
      exists f :: f in NotifiedFiles(event) && r == TfsLocalPath(f.path)
        && exists i :: 0 <= i < |mappedPaths.value| && StartsWith(Parse(f.path), Parse(mappedPaths.value[i].path))
  {
  }

  /** checkVersion: for now, any version of the reactive client is enough. */
  function CheckVersion(version: VersionNumber): (accepted: bool)
    ensures accepted
  {
    true
  }

  /** The local paths of a pending-changes query, as the connector expects them, in the same order. */
  function ToLocalPaths(localPaths: seq<Path>): (paths: seq<TfsLocalPath>)
    ensures |paths| == |localPaths|
    ensures forall i :: 0 <= i < |paths| ==> paths[i] == TfsLocalPath(Render(localPaths[i]))
    decreases |localPaths|
  {
    if localPaths == [] then [] else [TfsLocalPath(Render(localPaths[0]))] + ToLocalPaths(localPaths[1..])
  }

  /** No path is lost or altered on the way: each string reads back as the path it came from. */
  lemma LocalPathRoundTrip(localPaths: seq<Path>, i: nat)
    requires i < |localPaths| && WellFormed(localPaths[i])
    ensures Parse(ToLocalPaths(localPaths)[i].path) == localPaths[i]
  {
    ParseRender(localPaths[i]);
  }

  /** ServerStatusType.from applied to each change type, in order. */
  function MapChangeTypes<S>(changeTypes: seq<string>, statusFrom: string -> S): (statuses: seq<S>)
    ensures |statuses| == |changeTypes|
    ensures forall i :: 0 <= i < |statuses| ==> statuses[i] == statusFrom(changeTypes[i])
    decreases |changeTypes|
  {
    if changeTypes == [] then [] else [statusFrom(changeTypes[0])] + MapChangeTypes(changeTypes[1..], statusFrom)
  }

  /** One connector pending change as the plugin's PendingChange. */
  function ConvertPendingChange<S>(pc: TfsPendingChange, statusFrom: string -> S): PendingChange<S>
  {
    PendingChange(
      pc.serverItem, pc.localItem, Decimal.ToString(pc.version), pc.owner,
      pc.date, pc.lock, MapChangeTypes(pc.changeTypes, statusFrom), pc.workspace,
      pc.computer, pc.isCandidate, pc.sourceItem)
  }

  /** The connector's answer to a pending-changes query, converted element by element, in order. */
  function ConvertPendingChanges<S>(changes: seq<TfsPendingChange>, statusFrom: string -> S): (converted: seq<PendingChange<S>>)
    ensures |converted| == |changes|
    ensures forall i :: 0 <= i < |changes| ==> converted[i] == ConvertPendingChange(changes[i], statusFrom)
    decreases |changes|
  {
    if changes == [] then []
    else [ConvertPendingChange(changes[0], statusFrom)] + ConvertPendingChanges(changes[1..], statusFrom)
  }

  /**
   * Conversion keeps count and order, copies every field but the version and
   * the change types unchanged, renders the version as a numeral that reads
   * back as the same number, and maps the change types element-wise.
   */
  lemma PendingChangesPreserved<S>(changes: seq<TfsPendingChange>, statusFrom: string -> S, i: nat)
    requires i < |changes|
    ensures var c := ConvertPendingChanges(changes, statusFrom);
      var pc := changes[i];
      && |c| == |changes|
      && c[i].serverItem == pc.serverItem && c[i].localItem == pc.localItem
      && c[i].owner == pc.owner && c[i].date == pc.date && c[i].lock == pc.lock
      && c[i].workspace == pc.workspace && c[i].computer == pc.computer
      && c[i].isCandidate == pc.isCandidate && c[i].sourceItem == pc.sourceItem
      && c[i].version != [] && (c[i].version[0] == '-' || Decimal.IsDigit(c[i].version[0]))
      && (forall k :: 1 <= k < |c[i].version| ==> Decimal.IsDigit(c[i].version[k]))
      && Decimal.ParseInt(c[i].version) == pc.version as int
      && |c[i].changeTypes| == |pc.changeTypes|
      && (forall k :: 0 <= k < |pc.changeTypes| ==> c[i].changeTypes[k] == statusFrom(pc.changeTypes[k]))
  {
    Decimal.ToStringRoundTrip(changes[i].version);
  }
}
