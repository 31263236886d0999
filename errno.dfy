// The errno values the connection code inspects, with their Linux numbers.
// EWOULDBLOCK is the same number as EAGAIN there.
module Errno {
  const EPERM: int := 1
  const EINTR: int := 4
  const EBADF: int := 9
  const EAGAIN: int := 11
  const EWOULDBLOCK: int := 11
  const ENOMEM: int := 12
  const EACCES: int := 13
  const EFAULT: int := 14
  const EINVAL: int := 22
  const ENFILE: int := 23
  const EMFILE: int := 24
  const EPIPE: int := 32
  const EPROTO: int := 71
  const ENOTSOCK: int := 88
  const EOPNOTSUPP: int := 95
  const EAFNOSUPPORT: int := 97
  const EADDRINUSE: int := 98
  const EADDRNOTAVAIL: int := 99
  const ENETUNREACH: int := 101
  const ECONNABORTED: int := 103
  const ENOBUFS: int := 105
  const EISCONN: int := 106
  const ECONNREFUSED: int := 111
  const EALREADY: int := 114
  const EINPROGRESS: int := 115
}
