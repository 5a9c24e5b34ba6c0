/** The fields of each system call as its encoder writes them and as its decoder reads them
    (internal/timemachine/wasicall/codec.go). */
module Calls {
  import opened Basics
  import opened Bytes
  import C = Codec

  /** What a field holds; fields of one kind are written by one encoder of the source.  The
      last line has kinds that only occur inside others. */
  datatype Kind =
    | AddressInfo | AddressInfos | Advice | Bytes | ClockID | DirCookie | DirEntries | Errno | Events
    | ExitCode | FD | FDFlags | FDStat | FSTFlags | FileDelta | FileSize | FileStat | IOVecs | Int
    | LookupFlags | OpenFlags | PreStat | Protocol | ProtocolFamily | RIFlags | ROFlags | Rights | SDFlags
    | SIFlags | Signal | Size | SocketAddress | SocketOption | SocketOptionValue | SocketType | String
    | Strings | Subscriptions | Timestamp | Whence
    | AddressFlags | ClockFlags | EventFlags | EventType | FileType | PreOpenType

  /** What the codec takes from the definition of the types: how many bits each kind has that is
      written as a 32-bit number, and the numbers of address families and event types. */
  datatype Abi = Abi(width: Kind -> C.Bits, inet: int, inet6: int, unix: int, clock: int, read: int, write: int)

  /** A number written in 32 bits. */
  function Small(abi: Abi, k: Kind): C.Layout { C.Narrow(abi.width(k)) }

  function AddressLayout(abi: Abi): C.Layout {
    C.Tagged(Small(abi, ProtocolFamily), map[
      0 := C.Fields([]),
      abi.inet := C.Fields([C.Int, C.Fixed(4)]),
      abi.inet6 := C.Fields([C.Int, C.Fixed(16)]),
      abi.unix := C.Blob])
  }

  const SOCKET_OPTION_VALUE := C.Tagged(C.Int, map[0 := C.Fields([]), 1 := C.Int, 2 := C.Blob])

  function AddressInfoLayout(abi: Abi): C.Layout {
    C.Fields([Small(abi, AddressFlags), Small(abi, ProtocolFamily), Small(abi, SocketType), Small(abi, Protocol), AddressLayout(abi), C.Blob])
  }

  function FDStatLayout(abi: Abi): C.Layout { C.Fields([Small(abi, FileType), Small(abi, FDFlags), C.Long, C.Long]) }

  function FileStatLayout(abi: Abi): C.Layout {
    C.Fields([C.Long, C.Long, Small(abi, FileType), C.Long, C.Long, C.Long, C.Long, C.Long])
  }

  /** What is waited for; the tag is the event type. */
  function WaitLayout(abi: Abi): C.Layout {
    C.Tagged(Small(abi, EventType), map[
      abi.clock := C.Fields([Small(abi, ClockID), C.Long, C.Long, Small(abi, ClockFlags)]),
      abi.read := Small(abi, FD),
      abi.write := Small(abi, FD)])
  }

  function SubscriptionLayout(abi: Abi): C.Layout { C.Fields([C.Long, WaitLayout(abi)]) }

  /** What happened. */
  function DoneLayout(abi: Abi): C.Layout {
    C.Tagged(Small(abi, EventType), map[
      abi.clock := C.Fields([]),
      abi.read := C.Fields([C.Long, Small(abi, EventFlags)]),
      abi.write := C.Fields([C.Long, Small(abi, EventFlags)])])
  }

  function EventLayout(abi: Abi): C.Layout { C.Fields([C.Long, Small(abi, Errno), DoneLayout(abi)]) }

  function DirEntryLayout(abi: Abi): C.Layout { C.Fields([C.Long, C.Long, Small(abi, FileType), C.Blob]) }

  function LayoutOf(abi: Abi, k: Kind): C.Layout {
    match k
    case Bytes => C.Blob
    case DirCookie => C.Long
    case FileDelta => C.Int
    case FileSize => C.Long
    case Int => C.Int
    case Rights => C.Long
    case SocketOption => C.Long
    case String => C.Blob
    case Timestamp => C.Long
    case Strings => C.Vector(C.Blob)
    case IOVecs => C.Vector(C.Blob)
    case PreStat => C.Fields([Small(abi, PreOpenType), Small(abi, Size)])
    case FDStat => FDStatLayout(abi)
    case FileStat => FileStatLayout(abi)
    case SocketAddress => AddressLayout(abi)
    case SocketOptionValue => SOCKET_OPTION_VALUE
    case AddressInfo => AddressInfoLayout(abi)
    case AddressInfos => C.Vector(AddressInfoLayout(abi))
    case Subscriptions => C.Vector(SubscriptionLayout(abi))
    case Events => C.Vector(EventLayout(abi))
    case DirEntries => C.Vector(DirEntryLayout(abi))
    case _ => Small(abi, k)
  }

  function Layouts(abi: Abi, ks: seq<Kind>): (ls: seq<C.Layout>)
    ensures |ls| == |ks|
  {
    seq(|ks|, i requires 0 <= i < |ks| => LayoutOf(abi, ks[i]))
  }

  datatype Syscall =
    | ArgsSizesGet | ArgsGet | EnvironSizesGet | EnvironGet | ClockResGet | ClockTimeGet | FDAdvise
    | FDAllocate | FDClose | FDDataSync | FDStatGet | FDStatSetFlags | FDStatSetRights | FDFileStatGet
    | FDFileStatSetSize | FDFileStatSetTimes | FDPread | FDPreStatGet | FDPreStatDirName | FDPwrite | FDRead
    | FDReadDir | FDRenumber | FDSeek | FDSync | FDTell | FDWrite | PathCreateDirectory | PathFileStatGet
    | PathFileStatSetTimes | PathLink | PathOpen | PathReadLink | PathRemoveDirectory | PathRename
    | PathSymlink | PathUnlinkFile | PollOneOff | ProcExit | ProcRaise | SchedYield | RandomGet | SockAccept
    | SockRecv | SockSend | SockShutdown | SockOpen | SockBind | SockConnect | SockListen | SockSendTo
    | SockRecvFrom | SockGetOpt | SockSetOpt | SockLocalAddress | SockRemoteAddress | SockAddressInfo

  /** The fields in the order in which the Encode method of the call appends them. */
  function Encoder(c: Syscall): seq<Kind> {
    match c
    case ArgsSizesGet => [Errno, Int, Int]
    case ArgsGet => [Errno, Strings]
    case EnvironSizesGet => [Errno, Int, Int]
    case EnvironGet => [Errno, Strings]
    case ClockResGet => [Errno, ClockID, Timestamp]
    case ClockTimeGet => [Errno, ClockID, Timestamp, Timestamp]
    case FDAdvise => [Errno, FD, FileSize, FileSize, Advice]
    case FDAllocate => [Errno, FD, FileSize, FileSize]
    case FDClose => [Errno, FD]
    case FDDataSync => [Errno, FD]
    case FDStatGet => [Errno, FD, FDStat]
    case FDStatSetFlags => [Errno, FD, FDFlags]
    case FDStatSetRights => [Errno, FD, Rights, Rights]
    case FDFileStatGet => [Errno, FD, FileStat]
    case FDFileStatSetSize => [Errno, FD, FileSize]
    case FDFileStatSetTimes => [Errno, FD, Timestamp, Timestamp, FSTFlags]
    case FDPread => [Errno, FD, IOVecs, FileSize, Size]
    case FDPreStatGet => [Errno, FD, PreStat]
    case FDPreStatDirName => [Errno, FD, String]
    case FDPwrite => [Errno, FD, IOVecs, FileSize, Size]
    case FDRead => [Errno, FD, IOVecs, Size]
    case FDReadDir => [Errno, FD, DirEntries, DirCookie, Int]
    case FDRenumber => [Errno, FD, FD]
    case FDSeek => [Errno, FD, FileDelta, Whence, FileSize]
    case FDSync => [Errno, FD]
    case FDTell => [Errno, FD, FileSize]
    case FDWrite => [Errno, FD, IOVecs, Size]
    case PathCreateDirectory => [Errno, FD, String]
    case PathFileStatGet => [Errno, FD, LookupFlags, String, FileStat]
    case PathFileStatSetTimes => [Errno, FD, LookupFlags, String, Timestamp, Timestamp, FSTFlags]
    case PathLink => [Errno, FD, LookupFlags, String, FD, String]
    case PathOpen => [Errno, FD, LookupFlags, String, OpenFlags, Rights, Rights, FDFlags, FD]
    case PathReadLink => [Errno, FD, String, Bytes]
    case PathRemoveDirectory => [Errno, FD, String]
    case PathRename => [Errno, FD, String, FD, String]
    case PathSymlink => [Errno, String, FD, String]
    case PathUnlinkFile => [Errno, FD, String]
    case PollOneOff => [Errno, Subscriptions, Events]
    case ProcExit => [Errno, ExitCode]
    case ProcRaise => [Errno, Signal]
    case SchedYield => [Errno]
    case RandomGet => [Errno, Bytes]
    case SockAccept => [Errno, FD, FDFlags, FD, SocketAddress, SocketAddress]
    case SockRecv => [Errno, FD, IOVecs, RIFlags, Size, ROFlags]
    case SockSend => [Errno, FD, IOVecs, SIFlags, Size]
    case SockShutdown => [Errno, FD, SDFlags]
    case SockOpen => [Errno, ProtocolFamily, SocketType, Protocol, Rights, Rights, FD]
    case SockBind => [Errno, FD, SocketAddress, SocketAddress]
    case SockConnect => [Errno, FD, SocketAddress, SocketAddress]
    case SockListen => [Errno, FD, Int]
    case SockSendTo => [Errno, FD, IOVecs, SIFlags, SocketAddress, Size]
    case SockRecvFrom => [Errno, FD, IOVecs, RIFlags, Size, ROFlags, SocketAddress]
    case SockGetOpt => [Errno, FD, SocketOption, SocketOptionValue]
    case SockSetOpt => [Errno, FD, SocketOption, SocketOptionValue]
    case SockLocalAddress => [Errno, FD, SocketAddress]
    case SockRemoteAddress => [Errno, FD, SocketAddress]
    case SockAddressInfo => [Errno, String, String, AddressInfo, AddressInfos]
  }

  /** The fields in the order in which the Decode method of the call takes them. */
  function Decoder(c: Syscall): seq<Kind> {
    match c
    case ArgsSizesGet => [Errno, Int, Int]
    case ArgsGet => [Errno, Strings]
    case EnvironSizesGet => [Errno, Int, Int]
    case EnvironGet => [Errno, Strings]
    case ClockResGet => [Errno, ClockID, Timestamp]
    case ClockTimeGet => [Errno, ClockID, Timestamp, Timestamp]
    case FDAdvise => [Errno, FD, FileSize, FileSize, Advice]
    case FDAllocate => [Errno, FD, FileSize, FileSize]
    case FDClose => [Errno, FD]
    case FDDataSync => [Errno, FD]
    case FDStatGet => [Errno, FD, FDStat]
    case FDStatSetFlags => [Errno, FD, FDFlags]
    case FDStatSetRights => [Errno, FD, Rights, Rights]
    case FDFileStatGet => [Errno, FD, FileStat]
    case FDFileStatSetSize => [Errno, FD, FileSize]
    case FDFileStatSetTimes => [Errno, FD, Timestamp, Timestamp, FSTFlags]
    case FDPread => [Errno, FD, IOVecs, FileSize, Size]
    case FDPreStatGet => [Errno, FD, PreStat]
    case FDPreStatDirName => [Errno, FD, String]
    case FDPwrite => [Errno, FD, IOVecs, FileSize, Size]
    case FDRead => [Errno, FD, IOVecs, Size]
    case FDReadDir => [Errno, FD, DirEntries, DirCookie, Int]
    case FDRenumber => [Errno, FD, FD]
    case FDSeek => [Errno, FD, FileDelta, Whence, FileSize]
    case FDSync => [Errno, FD]
    case FDTell => [Errno, FD, FileSize]
    case FDWrite => [Errno, FD, IOVecs, Size]
    case PathCreateDirectory => [Errno, FD, String]
    case PathFileStatGet => [Errno, FD, LookupFlags, String, FileStat]
    case PathFileStatSetTimes => [Errno, FD, LookupFlags, String, Timestamp, Timestamp, FSTFlags]
    case PathLink => [Errno, FD, LookupFlags, String, FD, String]
    case PathOpen => [Errno, FD, LookupFlags, String, OpenFlags, Rights, Rights, FDFlags, FD]
    case PathReadLink => [Errno, FD, String, Bytes]
    case PathRemoveDirectory => [Errno, FD, String]
    case PathRename => [Errno, FD, String, FD, String]
    case PathSymlink => [Errno, String, FD, String]
    case PathUnlinkFile => [Errno, FD, String]
    case PollOneOff => [Errno, Subscriptions, Events]
    case ProcExit => [Errno, ExitCode]
    case ProcRaise => [Errno, Signal]
    case SchedYield => [Errno]
    case RandomGet => [Errno, Bytes]
    case SockAccept => [Errno, FD, FDFlags, FD, SocketAddress, SocketAddress]
    case SockRecv => [Errno, FD, IOVecs, RIFlags, Size, ROFlags]
    case SockSend => [Errno, FD, IOVecs, SIFlags, Size]
    case SockShutdown => [Errno, FD, SDFlags]
    case SockOpen => [Errno, ProtocolFamily, SocketType, Protocol, Rights, Rights, FD]
    case SockBind => [Errno, FD, SocketAddress, SocketAddress]
    case SockConnect => [Errno, FD, SocketAddress, SocketAddress]
    case SockListen => [Errno, FD, Int]
    case SockSendTo => [Errno, FD, IOVecs, SIFlags, SocketAddress, Size]
    case SockRecvFrom => [Errno, FD, IOVecs, RIFlags, Size, ROFlags, SocketAddress]
    case SockGetOpt => [Errno, FD, SocketOption, SocketOptionValue]
    case SockSetOpt => [Errno, FD, SocketOption, SocketOptionValue]
    case SockLocalAddress => [Errno, FD, SocketAddress]
    case SockRemoteAddress => [Errno, FD, SocketAddress]
    case SockAddressInfo => [Errno, String, String, AddressInfo, AddressInfos]
  }

  function EncodeCall(abi: Abi, c: Syscall, vs: seq<C.Value>): bytes { C.Encode(C.Fields(Layouts(abi, Encoder(c))), C.List(vs)) }

  function DecodeCall(abi: Abi, c: Syscall, b: bytes): C.Result<C.Value> { C.Decode(C.Fields(Layouts(abi, Decoder(c))), b) }

  // ----- which values there are, whatever their layout

  ghost predicate IsLong(v: C.Value) { v.Num? && 0 <= v.num < TWO64 }

  ghost predicate IsSigned(v: C.Value) { v.Num? && -TWO63 <= v.num < TWO63 }

  ghost predicate IsSmall(abi: Abi, k: Kind, v: C.Value) { v.Num? && 0 <= v.num < Pow2(abi.width(k)) }

  ghost predicate IsText(v: C.Value) { v.Raw? && |v.raw| < TWO32 }

  ghost predicate IsListOf(v: C.Value, n: nat) { v.List? && |v.items| == n }

  ghost predicate IsVector(v: C.Value) { v.List? && |v.items| < TWO32 }

  /** No address, or one of the three families: a port with an address of 4 or 16 bytes, or a
      name. */
  ghost predicate IsAddress(abi: Abi, v: C.Value) {
    v.Case? &&
    if v.tag == 0 then v.item == C.List([])
    else if v.tag == abi.inet then IsListOf(v.item, 2) && IsSigned(v.item.items[0]) && v.item.items[1].Raw? && |v.item.items[1].raw| == 4
    else if v.tag == abi.inet6 then IsListOf(v.item, 2) && IsSigned(v.item.items[0]) && v.item.items[1].Raw? && |v.item.items[1].raw| == 16
    else v.tag == abi.unix && IsText(v.item)
  }

  /** No value, a signed number, or bytes. */
  ghost predicate IsOptionValue(v: C.Value) {
    v.Case? && if v.tag == 0 then v.item == C.List([]) else if v.tag == 1 then IsSigned(v.item) else v.tag == 2 && IsText(v.item)
  }

  ghost predicate IsAddressInfo(abi: Abi, v: C.Value) {
    && IsListOf(v, 6) && IsSmall(abi, AddressFlags, v.items[0]) && IsSmall(abi, ProtocolFamily, v.items[1])
    && IsSmall(abi, SocketType, v.items[2]) && IsSmall(abi, Protocol, v.items[3]) && IsAddress(abi, v.items[4]) && IsText(v.items[5])
  }

  /** File type, flags, base and inheriting rights. */
  ghost predicate IsFDStat(abi: Abi, v: C.Value) {
    IsListOf(v, 4) && IsSmall(abi, FileType, v.items[0]) && IsSmall(abi, FDFlags, v.items[1]) && IsLong(v.items[2]) && IsLong(v.items[3])
  }

  /** Device, inode, type, links, size and three times. */
  ghost predicate IsFileStat(abi: Abi, v: C.Value) {
    && IsListOf(v, 8) && IsLong(v.items[0]) && IsLong(v.items[1]) && IsSmall(abi, FileType, v.items[2])
    && IsLong(v.items[3]) && IsLong(v.items[4]) && IsLong(v.items[5]) && IsLong(v.items[6]) && IsLong(v.items[7])
  }

  /** A clock with id, precision, timeout and flags, or a descriptor. */
  ghost predicate IsWait(abi: Abi, w: C.Value) {
    w.Case? &&
    if w.tag == abi.clock then
      && IsListOf(w.item, 4) && IsSmall(abi, ClockID, w.item.items[0]) && IsLong(w.item.items[1]) && IsLong(w.item.items[2])
      && IsSmall(abi, ClockFlags, w.item.items[3])
    else (w.tag == abi.read || w.tag == abi.write) && IsSmall(abi, FD, w.item)
  }

  /** User data, and what is waited for. */
  ghost predicate IsSubscription(abi: Abi, v: C.Value) { IsListOf(v, 2) && IsLong(v.items[0]) && IsWait(abi, v.items[1]) }

  /** Nothing, or a number of bytes and flags. */
  ghost predicate IsDone(abi: Abi, w: C.Value) {
    w.Case? &&
    if w.tag == abi.clock then w.item == C.List([])
    else (w.tag == abi.read || w.tag == abi.write) && IsListOf(w.item, 2) && IsLong(w.item.items[0]) && IsSmall(abi, EventFlags, w.item.items[1])
  }

  /** User data, error, and what happened. */
  ghost predicate IsEvent(abi: Abi, v: C.Value) {
    IsListOf(v, 3) && IsLong(v.items[0]) && IsSmall(abi, Errno, v.items[1]) && IsDone(abi, v.items[2])
  }

  /** Next cookie, inode, type and name. */
  ghost predicate IsDirEntry(abi: Abi, v: C.Value) {
    IsListOf(v, 4) && IsLong(v.items[0]) && IsLong(v.items[1]) && IsSmall(abi, FileType, v.items[2]) && IsText(v.items[3])
  }

  /** The values of each kind. */
  ghost predicate Holds(abi: Abi, k: Kind, v: C.Value) {
    match k
    case Bytes => IsText(v)
    case String => IsText(v)
    case DirCookie => IsLong(v)
    case FileSize => IsLong(v)
    case Rights => IsLong(v)
    case SocketOption => IsLong(v)
    case Timestamp => IsLong(v)
    case FileDelta => IsSigned(v)
    case Int => IsSigned(v)
    case Strings => IsVector(v) && forall i :: 0 <= i < |v.items| ==> IsText(v.items[i])
    case IOVecs => IsVector(v) && forall i :: 0 <= i < |v.items| ==> IsText(v.items[i])
    case PreStat => IsListOf(v, 2) && IsSmall(abi, PreOpenType, v.items[0]) && IsSmall(abi, Size, v.items[1])
    case FDStat => IsFDStat(abi, v)
    case FileStat => IsFileStat(abi, v)
    case SocketAddress => IsAddress(abi, v)
    case SocketOptionValue => IsOptionValue(v)
    case AddressInfo => IsAddressInfo(abi, v)
    case AddressInfos => IsVector(v) && forall i :: 0 <= i < |v.items| ==> IsAddressInfo(abi, v.items[i])
    case Subscriptions => IsVector(v) && forall i :: 0 <= i < |v.items| ==> IsSubscription(abi, v.items[i])
    case Events => IsVector(v) && forall i :: 0 <= i < |v.items| ==> IsEvent(abi, v.items[i])
    case DirEntries => IsVector(v) && forall i :: 0 <= i < |v.items| ==> IsDirEntry(abi, v.items[i])
    case _ => IsSmall(abi, k, v)
  }

  /** Families and event types have different numbers, which their types can hold. */
  ghost predicate Sensible(abi: Abi) {
    var f, e := Pow2(abi.width(ProtocolFamily)), Pow2(abi.width(EventType));
    && 0 < abi.inet < f && 0 < abi.inet6 < f && 0 < abi.unix < f
    && abi.inet != abi.inet6 && abi.inet != abi.unix && abi.inet6 != abi.unix
    && 0 <= abi.clock < e && 0 <= abi.read < e && 0 <= abi.write < e
    && abi.clock != abi.read && abi.clock != abi.write && abi.read != abi.write
  }

  lemma {:induction false} NumberFits(abi: Abi, k: Kind, v: C.Value)
    ensures C.Fits(C.Long, v) <==> IsLong(v)
    ensures C.Fits(C.Int, v) <==> IsSigned(v)
    ensures C.Fits(Small(abi, k), v) <==> IsSmall(abi, k, v)
    ensures C.Fits(C.Blob, v) <==> IsText(v)
  {
    var s := Small(abi, k);
    assert C.Fits(s, v) <==> v.Num? && C.NumFits(s, v.num);
  }

  lemma {:induction false} EmptyFits(v: C.Value)
    ensures C.Fits(C.Fields([]), v) <==> v == C.List([])
  {
  }

  lemma {:induction false} PairFits(l: C.Layout, m: C.Layout, v: C.Value)
    ensures C.Fits(C.Fields([l, m]), v) <==> IsListOf(v, 2) && C.Fits(l, v.items[0]) && C.Fits(m, v.items[1])
  {
    var fs := [l, m];
    assert fs[0] == l && fs[1] == m;
  }

  lemma {:induction false} FourFit(ls: seq<C.Layout>, v: C.Value)
    requires |ls| == 4
    ensures C.Fits(C.Fields(ls), v) <==>
      IsListOf(v, 4) && C.Fits(ls[0], v.items[0]) && C.Fits(ls[1], v.items[1]) && C.Fits(ls[2], v.items[2]) && C.Fits(ls[3], v.items[3])
  {
  }

  lemma {:induction false} PortFits(n: nat, v: C.Value)
    ensures C.Fits(C.Fields([C.Int, C.Fixed(n)]), v) <==> IsListOf(v, 2) && IsSigned(v.items[0]) && v.items[1].Raw? && |v.items[1].raw| == n
  {
    PairFits(C.Int, C.Fixed(n), v);
  }

  lemma {:induction false} AddressFits(abi: Abi, v: C.Value)
    requires Sensible(abi)
    ensures C.Fits(AddressLayout(abi), v) <==> IsAddress(abi, v)
  {
    if v.Case? {
      EmptyFits(v.item);
      PortFits(4, v.item);
      PortFits(16, v.item);
    }
  }

  lemma {:induction false} OptionValueFits(v: C.Value)
    ensures C.Fits(SOCKET_OPTION_VALUE, v) <==> IsOptionValue(v)
  {
    if v.Case? { EmptyFits(v.item); }
  }

  lemma {:induction false} AddressInfoFits(abi: Abi, v: C.Value)
    requires Sensible(abi)
    ensures C.Fits(AddressInfoLayout(abi), v) <==> IsAddressInfo(abi, v)
  {
    var ls := [Small(abi, AddressFlags), Small(abi, ProtocolFamily), Small(abi, SocketType), Small(abi, Protocol), AddressLayout(abi), C.Blob];
    if IsListOf(v, 6) {
      AddressFits(abi, v.items[4]);
      assert C.Fits(C.Fields(ls), v) <==> forall i :: 0 <= i < 6 ==> C.Fits(ls[i], v.items[i]);
    }
  }

  lemma {:induction false} FDStatFits(abi: Abi, v: C.Value)
    ensures C.Fits(FDStatLayout(abi), v) <==> IsFDStat(abi, v)
  {
    FourFit([Small(abi, FileType), Small(abi, FDFlags), C.Long, C.Long], v);
  }

  lemma {:induction false} FileStatFits(abi: Abi, v: C.Value)
    ensures C.Fits(FileStatLayout(abi), v) <==> IsFileStat(abi, v)
  {
    var ls := [C.Long, C.Long, Small(abi, FileType), C.Long, C.Long, C.Long, C.Long, C.Long];
    if IsListOf(v, 8) {
      assert C.Fits(C.Fields(ls), v) <==> forall i :: 0 <= i < 8 ==> C.Fits(ls[i], v.items[i]);
    }
  }

  lemma {:induction false} WaitFits(abi: Abi, w: C.Value)
    requires Sensible(abi)
    ensures C.Fits(WaitLayout(abi), w) <==> IsWait(abi, w)
  {
    if w.Case? { FourFit([Small(abi, ClockID), C.Long, C.Long, Small(abi, ClockFlags)], w.item); }
  }

  lemma {:induction false} SubscriptionFits(abi: Abi, v: C.Value)
    requires Sensible(abi)
    ensures C.Fits(SubscriptionLayout(abi), v) <==> IsSubscription(abi, v)
  {
    PairFits(C.Long, WaitLayout(abi), v);
    if IsListOf(v, 2) { WaitFits(abi, v.items[1]); }
  }

  lemma {:induction false} DoneFits(abi: Abi, w: C.Value)
    requires Sensible(abi)
    ensures C.Fits(DoneLayout(abi), w) <==> IsDone(abi, w)
  {
    if w.Case? {
      EmptyFits(w.item);
      PairFits(C.Long, Small(abi, EventFlags), w.item);
    }
  }

  lemma {:induction false} EventFits(abi: Abi, v: C.Value)
    requires Sensible(abi)
    ensures C.Fits(EventLayout(abi), v) <==> IsEvent(abi, v)
  {
    var ls := [C.Long, Small(abi, Errno), DoneLayout(abi)];
    if IsListOf(v, 3) {
      assert C.Fits(C.Fields(ls), v) <==> forall i :: 0 <= i < 3 ==> C.Fits(ls[i], v.items[i]);
      DoneFits(abi, v.items[2]);
    }
  }

  lemma {:induction false} DirEntryFits(abi: Abi, v: C.Value)
    ensures C.Fits(DirEntryLayout(abi), v) <==> IsDirEntry(abi, v)
  {
    FourFit([C.Long, C.Long, Small(abi, FileType), C.Blob], v);
  }

  lemma {:induction false} VectorFits(abi: Abi, k: Kind, v: C.Value)
    requires Sensible(abi) && (k.AddressInfos? || k.Subscriptions? || k.Events? || k.DirEntries?)
    ensures C.Fits(LayoutOf(abi, k), v) <==> Holds(abi, k, v)
  {
    if v.List? {
      forall i | 0 <= i < |v.items| && k.AddressInfos? ensures C.Fits(AddressInfoLayout(abi), v.items[i]) <==> IsAddressInfo(abi, v.items[i]) { AddressInfoFits(abi, v.items[i]); }
      forall i | 0 <= i < |v.items| && k.Subscriptions? ensures C.Fits(SubscriptionLayout(abi), v.items[i]) <==> IsSubscription(abi, v.items[i]) { SubscriptionFits(abi, v.items[i]); }
      forall i | 0 <= i < |v.items| && k.Events? ensures C.Fits(EventLayout(abi), v.items[i]) <==> IsEvent(abi, v.items[i]) { EventFits(abi, v.items[i]); }
      forall i | 0 <= i < |v.items| && k.DirEntries? ensures C.Fits(DirEntryLayout(abi), v.items[i]) <==> IsDirEntry(abi, v.items[i]) { DirEntryFits(abi, v.items[i]); }
    }
  }

  lemma {:induction false} TextsFit(v: C.Value)
    ensures C.Fits(C.Vector(C.Blob), v) <==> IsVector(v) && forall i :: 0 <= i < |v.items| ==> IsText(v.items[i])
  {
  }

  /** Kinds with one number, or one string, or several. */
  predicate IsPlain(k: Kind) {
    !(k.PreStat? || k.FDStat? || k.FileStat? || k.SocketAddress? || k.SocketOptionValue? || k.AddressInfo?
      || k.AddressInfos? || k.Subscriptions? || k.Events? || k.DirEntries?)
  }

  lemma {:induction false} PlainHolds(abi: Abi, k: Kind, v: C.Value)
    requires IsPlain(k)
    ensures C.Fits(LayoutOf(abi, k), v) <==> Holds(abi, k, v)
  {
    if k.Strings? || k.IOVecs? { TextsFit(v); } else { NumberFits(abi, k, v); }
  }

  /** The layout of each kind holds exactly the values of the kind. */
  lemma {:induction false} LayoutHolds(abi: Abi, k: Kind, v: C.Value)
    requires Sensible(abi)
    ensures C.Fits(LayoutOf(abi, k), v) <==> Holds(abi, k, v)
  {
    if IsPlain(k) { PlainHolds(abi, k, v); }
    else if k.AddressInfos? || k.Subscriptions? || k.Events? || k.DirEntries? { VectorFits(abi, k, v); }
    else { RecordFits(abi, k, v); }
  }

  lemma {:induction false} RecordFits(abi: Abi, k: Kind, v: C.Value)
    requires Sensible(abi) && !IsPlain(k) && !(k.AddressInfos? || k.Subscriptions? || k.Events? || k.DirEntries?)
    ensures C.Fits(LayoutOf(abi, k), v) <==> Holds(abi, k, v)
  {
    if k.PreStat? { PreStatFits(abi, v); }
    else if k.FDStat? { FDStatFits(abi, v); }
    else if k.FileStat? { FileStatFits(abi, v); }
    else if k.SocketAddress? { AddressFits(abi, v); }
    else if k.SocketOptionValue? { OptionValueFits(v); }
    else { AddressInfoFits(abi, v); }
  }

  lemma {:induction false} PreStatFits(abi: Abi, v: C.Value)
    ensures C.Fits(LayoutOf(abi, PreStat), v) <==> Holds(abi, PreStat, v)
  {
    PairFits(Small(abi, PreOpenType), Small(abi, Size), v);
  }

  /** Arguments and results of a call: a value of each of its kinds. */
  ghost predicate CallHolds(abi: Abi, c: Syscall, vs: seq<C.Value>) {
    |vs| == |Encoder(c)| && forall i :: 0 <= i < |vs| ==> Holds(abi, Encoder(c)[i], vs[i])
  }

  ghost predicate CallFits(abi: Abi, c: Syscall, vs: seq<C.Value>) { C.Fits(C.Fields(Layouts(abi, Encoder(c))), C.List(vs)) }

  lemma {:induction false} CallFitsExactly(abi: Abi, c: Syscall, vs: seq<C.Value>)
    requires Sensible(abi)
    ensures CallFits(abi, c, vs) <==> CallHolds(abi, c, vs)
  {
    KindsFit(abi, Encoder(c), vs);
  }

  lemma {:induction false} KindsFit(abi: Abi, ks: seq<Kind>, vs: seq<C.Value>)
    requires Sensible(abi)
    ensures C.Fits(C.Fields(Layouts(abi, ks)), C.List(vs)) <==> |vs| == |ks| && forall i :: 0 <= i < |vs| ==> Holds(abi, ks[i], vs[i])
  {
    var ls := Layouts(abi, ks);
    if |vs| == |ks| {
      forall i | 0 <= i < |vs| ensures C.Fits(ls[i], vs[i]) <==> Holds(abi, ks[i], vs[i]) { LayoutHolds(abi, ks[i], vs[i]); }
      assert C.Fits(C.Fields(ls), C.List(vs)) <==> forall i :: 0 <= i < |ls| ==> C.Fits(ls[i], vs[i]);
    }
  }

  lemma {:induction false} OrdersAgree(c: Syscall)
    ensures Encoder(c) == Decoder(c)
  {
  }

  /** Every call decodes to the arguments and results it was encoded from. */
  lemma {:induction false} CallRoundTrip(abi: Abi, c: Syscall, vs: seq<C.Value>, rest: bytes)
    requires Sensible(abi) && CallHolds(abi, c, vs) && |EncodeCall(abi, c, vs)| + |rest| < TWO32
    ensures DecodeCall(abi, c, EncodeCall(abi, c, vs) + rest) == C.Ok(C.List(vs), rest)
  {
    CallFitsExactly(abi, c, vs);
    OrdersAgree(c);
    C.RoundTrip(C.Fields(Layouts(abi, Encoder(c))), C.List(vs), rest);
  }

  lemma {:induction false} AddressProper(abi: Abi)
    ensures C.Proper(AddressLayout(abi)) && C.Proper(SOCKET_OPTION_VALUE) && C.Proper(AddressInfoLayout(abi))
  {
  }

  lemma {:induction false} EventProper(abi: Abi)
    ensures C.Proper(SubscriptionLayout(abi)) && C.Proper(EventLayout(abi))
  {
    WaitProper(abi);
    DoneProper(abi);
  }

  lemma {:induction false} WaitProper(abi: Abi)
    ensures C.Proper(WaitLayout(abi))
  {
    assert C.Proper(C.Fields([Small(abi, ClockID), C.Long, C.Long, Small(abi, ClockFlags)]));
  }

  lemma {:induction false} DoneProper(abi: Abi)
    ensures C.Proper(DoneLayout(abi))
  {
    assert C.Proper(C.Fields([])) && C.Proper(C.Fields([C.Long, Small(abi, EventFlags)]));
  }

  lemma {:induction false} StatProper(abi: Abi)
    ensures C.Proper(DirEntryLayout(abi)) && C.Proper(FDStatLayout(abi)) && C.Proper(FileStatLayout(abi))
  {
  }

  lemma {:induction false} KindProper(abi: Abi, k: Kind)
    ensures C.Proper(LayoutOf(abi, k))
  {
    AddressProper(abi);
    EventProper(abi);
    StatProper(abi);
  }

  /** The bits that reading drops are zero throughout a record. */
  ghost predicate CleanCall(abi: Abi, c: Syscall, b: bytes) { C.Clean(C.Fields(Layouts(abi, Decoder(c))), b) }

  /** A record that decodes, encoded again, is the same record if and only if the bits that its
      narrow fields drop are zero; and no record decodes when it is cut short. */
  lemma {:induction false} CallCanonical(abi: Abi, c: Syscall, b: bytes)
    requires DecodeCall(abi, c, b).Ok?
    ensures var r := DecodeCall(abi, c, b);
      r.value.List? && (Sensible(abi) ==> CallHolds(abi, c, r.value.items)) && (EncodeCall(abi, c, r.value.items) + r.rest == b <==> CleanCall(abi, c, b))
    ensures DecodeCall(abi, c, b).rest == [] && |b| < TWO32 ==> forall k :: 0 <= k < |b| ==> DecodeCall(abi, c, b[..k]).Err?
  {
    OrdersAgree(c);
    KindsCanonical(abi, Decoder(c), b);
    if Sensible(abi) { CallFitsExactly(abi, c, DecodeCall(abi, c, b).value.items); }
  }

  lemma {:induction false} KindsCanonical(abi: Abi, ks: seq<Kind>, b: bytes)
    requires C.Decode(C.Fields(Layouts(abi, ks)), b).Ok?
    ensures var l := C.Fields(Layouts(abi, ks));
      var r := C.Decode(l, b);
      && r.value.List? && C.Fits(l, r.value) && (C.Encode(l, r.value) + r.rest == b <==> C.Clean(l, b))
      && (r.rest == [] && |b| < TWO32 ==> forall k :: 0 <= k < |b| ==> C.Decode(l, b[..k]).Err?)
  {
    var l := C.Fields(Layouts(abi, ks));
    var r := C.Decode(l, b);
    assert C.Proper(l) by { forall i | 0 <= i < |l.fields| ensures C.Proper(l.fields[i]) { KindProper(abi, ks[i]); } }
    C.Canonical(l, b);
    C.RebuildsAll(C.Encode(l, r.value), r.rest, b, C.Clean(l, b));
    if r.rest == [] && |b| < TWO32 {
      forall k | 0 <= k < |b| ensures C.Decode(l, b[..k]).Err? { C.CutFails(l, b, k); }
    }
  }

  /** Where error numbers have fewer than 32 bits, a record with one bit more decodes to a call
      that is encoded otherwise. */
  lemma {:induction false} DroppedBit(abi: Abi)
    requires abi.width(Errno) < 32
    ensures var b := LE(Pow2(abi.width(Errno)), 4);
      && DecodeCall(abi, SchedYield, b) == C.Ok(C.List([C.Num(0)]), [])
      && EncodeCall(abi, SchedYield, [C.Num(0)]) != b
  {
    var n := abi.width(Errno);
    var b, l := LE(Pow2(n), 4), C.Narrow(n);
    Pow2s();
    Pow2Monotone(n + 1, 32);
    assert 2 * Pow2(n) == Pow2(n + 1);
    Powers();
    FromLEOfLE(Pow2(n), 4);
    assert b[..4] == b && b[4..] == [];
    assert C.DecodeNum(l, b) == C.Ok(0, []);
    OneField(abi, b);
    assert FromLE(LE(0, 4)) == 0 by { FromLEOfLE(0, 4); }
  }

  lemma {:induction false} OneField(abi: Abi, b: bytes)
    requires C.DecodeNum(C.Narrow(abi.width(Errno)), b) == C.Ok(0, [])
    ensures DecodeCall(abi, SchedYield, b) == C.Ok(C.List([C.Num(0)]), [])
    ensures EncodeCall(abi, SchedYield, [C.Num(0)]) == LE(0, 4)
  {
    var ls := Layouts(abi, [Errno]);
    assert ls[0] == C.Narrow(abi.width(Errno)) && ls[1..] == [] && [C.Num(0)][1..] == [];
    assert C.DecodeFields(ls[1..], []) == C.Ok([], []);
    assert C.Decode(ls[0], b) == C.Ok(C.Num(0), []);
    assert [C.Num(0)] + [] == [C.Num(0)];
    assert C.DecodeFields(ls, b) == C.Ok([C.Num(0)], []);
    assert C.EncodeFields(ls[1..], []) == [];
    assert C.Encode(ls[0], C.Num(0)) == LE(0, 4) && LE(0, 4) + [] == LE(0, 4);
    assert C.EncodeFields(ls, [C.Num(0)]) == LE(0, 4);
    assert Encoder(SchedYield) == [Errno];
  }
}
