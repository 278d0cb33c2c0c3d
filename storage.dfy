/** The part of the file system the label layer touches: the uploaded image files
    and the label text files, each keyed by its path. */
module Storage {

  type byte = bv8

  class Disk {
    /** Uploaded image files: path to content. */
    var images: map<string, seq<byte>>
    /** Label text files: path to the text they hold. */
    var texts: map<string, string>

    constructor(images: map<string, seq<byte>>, texts: map<string, string>)
      ensures this.images == images && this.texts == texts
    {
      this.images := images;
      this.texts := texts;
    }
  }
}
