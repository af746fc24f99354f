/** The metadata vocabulary of an image: inodes, directory entries, chunk references. */
module Types {

  newtype Byte = b: int | 0 <= b < 256
  type Bytes = seq<Byte>

  type Name = Bytes
  /** An absolute path, as the list of its components; [] is "/". */
  type Path = seq<Name>

  type Ino = nat
  type HostIno = nat
  type Digest = Bytes

  datatype Option<+T> = None | Some(value: T)

  datatype Error =
    | ENOENT | ENOTDIR | EINVAL | EACCES | EPERM
    | MissingVerity | VerityMismatch | AlreadyExists | Escape | SymlinkPrefix | BadMode

  datatype Result<+T> = Ok(value: T) | Err(error: Error)

  datatype BlobRef = BlobRef(digest: Digest, offset: nat, compressed: bool)
  datatype FileChunk = FileChunk(blob: BlobRef, len: nat)
  datatype DirEnt = DirEnt(ino: Ino, name: Name)
  datatype Xattr = Xattr(key: Bytes, val: Bytes)
  datatype Additional = Additional(xattrs: seq<Xattr>, symlinkTarget: Option<Bytes>)

  datatype InodeMode =
    | Unknown
    | Fifo
    | Chr(major: nat, minor: nat)
    | Dir(lookBelow: bool, entries: seq<DirEnt>)
    | Blk(major: nat, minor: nat)
    | File(chunks: seq<FileChunk>)
    | Lnk
    | Sock
    | Wht

  /** Read, write and execute for user, group and others, and the SUID, SGID and sticky bits. */
  type Permissions = bv12

  /** What host metadata an inode carries: owner, the twelve permission bits, xattrs and link target. */
  datatype Meta = Meta(uid: nat, gid: nat, permissions: Permissions, additional: Option<Additional>)

  datatype Inode = Inode(ino: Ino, mode: InodeMode, meta: Meta)

  type Layer = seq<Inode>

  const DEFAULT_FILE_PERMISSIONS: Permissions := 420

  function NewWhiteout(ino: Ino): Inode {
    Inode(ino, Wht, Meta(0, 0, DEFAULT_FILE_PERMISSIONS, None))
  }
}
