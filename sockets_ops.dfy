// The decision logic of sockets::*: how accept() failures are classified,
// which error getSocketError reports, the self-connect test, and the byte
// order of the port inside a sockaddr_in. The system calls themselves are
// inputs: their return value and errno are parameters.
module SocketsOps {
  import opened Bytes
  import opened Errno
  import Text

  /** What sockets::accept does with a failed accept4: keep errno, or abort. */
  datatype AcceptClass = Expected | Unexpected | Unknown

  /** The errors accept() treats as part of normal operation. */
  predicate ExpectedAcceptError(err: int)
  {
    err == EAGAIN || err == ECONNABORTED || err == EINTR ||
    err == EPROTO || err == EPERM || err == EMFILE
  }

  /** The errors accept() names as programming or resource faults. */
  predicate UnexpectedAcceptError(err: int)
  {
    err == EBADF || err == EFAULT || err == EINVAL || err == ENFILE ||
    err == ENOBUFS || err == ENOMEM || err == ENOTSOCK || err == EOPNOTSUPP
  }

  function ClassifyAcceptError(err: int): (c: AcceptClass)
    ensures c == Expected <==> ExpectedAcceptError(err)
    ensures c == Unexpected <==> UnexpectedAcceptError(err)
    ensures c == Unknown <==> !ExpectedAcceptError(err) && !UnexpectedAcceptError(err)
  {
    if ExpectedAcceptError(err) then Expected
    else if UnexpectedAcceptError(err) then Unexpected
    else Unknown
  }

  /** The outcome of sockets::accept: the descriptor, errno afterwards, and whether LOG_FATAL ran. */
  datatype AcceptResult = AcceptResult(fd: int, errno: int, fatal: bool)

  /**
   * accept(sockfd, addr) given accept4's result and errno: a descriptor comes
   * back unchanged; a failure keeps errno when it is expected and is fatal
   * otherwise.
   */
  function Accept(connfd: int, err: int): (r: AcceptResult)
    ensures r.fd == connfd && r.errno == err
    ensures connfd >= 0 ==> !r.fatal
    ensures connfd < 0 ==> (r.fatal <==> !ExpectedAcceptError(err))
  {
    if connfd >= 0 then AcceptResult(connfd, err, false)
    else AcceptResult(connfd, err, ClassifyAcceptError(err) != Expected)
  }

  /** The two error lists do not overlap, so every code has one class. */
  lemma AcceptListsDisjoint(err: int)
    ensures !(ExpectedAcceptError(err) && UnexpectedAcceptError(err))
  {
  }

  /** getSocketError: errno when getsockopt fails, else the SO_ERROR value it read. */
  function GetSocketError(getsockoptRc: int, err: int, optval: int): (e: int)
    ensures getsockoptRc < 0 ==> e == err
    ensures getsockoptRc >= 0 ==> e == optval
  {
    if getsockoptRc < 0 then err else optval
  }

  /** A sockaddr_in: family, the port in network byte order, the IPv4 address bytes. */
  datatype SockAddr = SockAddr(family: int, port: seq<byte>, addr: seq<byte>)

  const AF_INET: int := 2

  /** hostToNetwork16: the two bytes of the port, most significant first. */
  function HostToNetwork16(port: nat): (b: seq<byte>)
    requires port < 0x1_0000
    ensures |b| == 2 && b[0] == port / 256 && b[1] == port % 256
  {
    assert BigEndian(port / 256, 1) == [(port / 256) % 256];
    BigEndian(port, 2)
  }

  /** networkToHost16: the port a network-order pair of bytes denotes. */
  function NetworkToHost16(b: seq<byte>): (port: nat)
    requires |b| == 2
    ensures port < 0x1_0000 && port == b[0] as int * 256 + b[1] as int
  {
    assert b[..1][..0] == [] && b[..1][0] == b[0];
    assert FromBigEndian(b[..1]) == b[0];
    FromBigEndian(b)
  }

  lemma PortRoundTrip(port: nat)
    requires port < 0x1_0000
    ensures NetworkToHost16(HostToNetwork16(port)) == port
  {
    FromBigEndianOfBigEndian(port, 2);
  }

  lemma PortBytesRoundTrip(b: seq<byte>)
    requires |b| == 2
    ensures HostToNetwork16(NetworkToHost16(b)) == b
  {
    BigEndianOfFromBigEndian(b);
  }

  /**
   * fromIpPort: the address family, the port stored in network order and the
   * address bytes (inet_pton's text parsing is not part of this model).
   */
  function FromIpPort(ip: seq<byte>, port: nat): (a: SockAddr)
    requires |ip| == 4 && port < 0x1_0000
    ensures a.family == AF_INET && a.addr == ip
    ensures |a.port| == 2 && NetworkToHost16(a.port) == port
  {
    PortRoundTrip(port);
    SockAddr(AF_INET, HostToNetwork16(port), ip)
  }

  /** toIpPort: the dotted address text (given), ':' and the host-order port in decimal. */
  function ToIpPort(host: string, a: SockAddr): (s: string)
    requires |a.port| == 2
    ensures |s| > |host| + 1 && s[..|host| + 1] == host + ":"
    ensures s[|host| + 1] != '-'
    ensures Text.ParseDecimal(s[|host| + 1..]) == NetworkToHost16(a.port)
  {
    var t := Text.DecimalString(NetworkToHost16(a.port));
    Text.DecimalRoundTrip(NetworkToHost16(a.port));
    assert (host + ":" + t)[|host| + 1..] == t;
    host + ":" + t
  }

  /** The port printed by toIpPort is the one fromIpPort was given. */
  lemma IpPortRoundTrip(host: string, ip: seq<byte>, port: nat)
    requires |ip| == 4 && port < 0x1_0000
    ensures var s := ToIpPort(host, FromIpPort(ip, port));
      s[..|host| + 1] == host + ":" &&
      Text.ParseDecimal(s[|host| + 1..]) == port
  {
    var s := ToIpPort(host, FromIpPort(ip, port));
    assert s[|host| + 1..] == Text.DecimalString(port);
    Text.DecimalRoundTrip(port);
  }

  /** isSelfConnect: same port and same address on both ends. */
  predicate IsSelfConnect(local: SockAddr, peer: SockAddr)
  {
    local.port == peer.port && local.addr == peer.addr
  }

  /** Self-connection is a symmetric relation that ignores only the family. */
  lemma SelfConnectMeans(local: SockAddr, peer: SockAddr)
    ensures IsSelfConnect(local, peer) <==> local.(family := peer.family) == peer
    ensures IsSelfConnect(local, peer) <==> IsSelfConnect(peer, local)
  {
  }
}
