/**
 * The project's files as the CMS endpoints see them: the text of every
 * file by its path and the directories `mkdir` has been asked to create.
 */
module CmsDisk {

  class Disk {
    var files: map<string, string>
    var dirs: set<string>

    constructor(files: map<string, string>, dirs: set<string>)
      ensures this.files == files && this.dirs == dirs
    {
      this.files := files;
      this.dirs := dirs;
    }

    /** `fs.mkdir(p, { recursive: true })`. */
    method MakeDir(p: string)
      modifies this
      ensures dirs == old(dirs) + {p} && files == old(files)
    {
      dirs := dirs + {p};
    }

    /** `fs.writeFile(p, text)`: creates or replaces the file. */
    method WriteFile(p: string, text: string)
      modifies this
      ensures files == old(files)[p := text] && dirs == old(dirs)
    {
      files := files[p := text];
    }
  }
}
