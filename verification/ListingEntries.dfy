/** The entries of directory listings and what is known about a listing as a whole. */
module ListingEntries {

  datatype Direntry = Direntry(name: string, size: int, isDir: bool, isLink: bool, unsure: bool,
                               permissions: string, ownerGroup: string)

  datatype Flag =
    | FileAdded | FileRemoved | FileChanged | DirAdded | DirRemoved | DirChanged | Unknown | Invalid
    | Failed | HasDirs | HasPerms | HasUserGroup
}
