/** A card behind the mount interface: its files, and whether it is mounted and writable. */
module Mounter {
  import opened Domain

  class Device {
    var files: map<string, Bytes>
    var mounted: bool
    var writable: bool

    constructor (files: map<string, Bytes>)
      ensures this.files == files && !mounted && !writable
    {
      this.files, mounted, writable := files, false, false;
    }

    /** Mounts read-only. */
    method Mount(succeeds: bool) returns (ok: bool)
      requires !mounted
      modifies this`mounted, this`writable
      ensures ok == succeeds == mounted && !writable
    {
      ok, mounted, writable := succeeds, succeeds, false;
    }

    /** Remounts; a failed remount leaves the mode as it was. */
    method Remount(readOnly: bool, succeeds: bool) returns (ok: bool)
      requires mounted
      modifies this`writable
      ensures ok == succeeds && writable == if succeeds then !readOnly else old(writable)
    {
      if succeeds { writable := !readOnly; }
      ok := succeeds;
    }

    /** Unmounting may report an error; either way nothing is written any more. */
    method Unmount()
      requires mounted
      modifies this`mounted, this`writable
      ensures !mounted && !writable
    {
      mounted, writable := false, false;
    }

    /** Removing needs a writable mount and an existing file. */
    method Remove(path: string, succeeds: bool) returns (ok: bool)
      modifies this`files
      ensures ok == (succeeds && writable && path in old(files))
      ensures files == if ok then old(files) - {path} else old(files)
    {
      ok := succeeds && writable && path in files;
      if ok { files := files - {path}; }
    }
  }
}
