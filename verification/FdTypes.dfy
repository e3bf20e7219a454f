/** Values shared by every backend of the virtual file-descriptor tables. */
module FdTypes {

  /** Slots per cage; also the bound of every descriptor scan. */
  const FD_PER_PROCESS_MAX: nat := 1024

  /** Kinds chosen by users lie below this value; the kind of epoll descriptors is reserved. */
  const FDT_KINDMAX: nat := 0xff00_0000
  const FDT_KINDEPOLL: nat := 0xff00_0002

  datatype Entry = Entry(fdkind: nat, underfd: nat, shouldCloexec: bool, perfdinfo: nat)

  /** What the global reference count is kept for. */
  datatype Key = Key(fdkind: nat, underfd: nat)

  function KeyOf(e: Entry): Key {
    Key(e.fdkind, e.underfd)
  }

  datatype Errno = EBADF | EBADFD | EMFILE | EINVAL | ENOSYS | EEXIST | ENOENT

  /** One cage's descriptors: virtual fd to entry. */
  type Row = map<nat, Entry>
}
