/**
 * The note and notebook records shared by the guest store, the autosave engine
 * and the views. A guest note and a note returned by the server have the same
 * shape, so one datatype stands for both.
 */
module Records {
  import opened Wrappers

  datatype Note = Note(
    id: string,
    title: string,
    content: string,
    createdAt: string,
    updatedAt: string,
    isPinned: bool,
    notebookId: Option<string>,   // None stands for `null`
    tags: seq<string>)

  datatype Notebook = Notebook(id: string, name: string, createdAt: string, updatedAt: string)
}
