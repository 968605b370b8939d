/** The external services, each an abstract function: a result, or None
    where the library call raises. */
module Providers {
  import opened Wrappers
  import opened Paths
  import opened Chunking

  /** What Whisper is asked to recognise. */
  datatype Segment =
    | Whole(source: Path, english: bool)            // the whole file; english: language='en' was passed
    | Piece(source: Path, index: nat, chunk: Chunk) // temp_chunk_<index>.mp3 cut from source

  /** Page texts as a PDF library reports them; None for a page stands for
      extract_text() returning None. */
  type Pages = seq<Option<string>>

  datatype Services = Services(
    modelLoads: bool,                      // whisper.load_model (and, for the local tool, genai.configure) succeed
    fetch: string -> Option<nat>,          // yt-dlp: URL -> duration of the mp3 it leaves behind
    recognize: Segment -> Option<string>,  // Whisper: result['text']
    translate: string -> Option<string>,   // Gemini: response.text for a prompt
    speak: string -> bool,                 // gTTS(text).save(path) succeeds
    plumber: Path -> Option<Pages>,        // pdfplumber: the pages of a PDF
    pypdf: Path -> Option<Pages>)          // PyPDF2: the pages of a PDF
}
