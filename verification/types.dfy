/** The records the page passes around and the option lists it offers. */
module Types {
  import opened Wrappers

  /** Target length of a short, `'30' | '60' | '90'`. */
  datatype Duration = Thirty | Sixty | Ninety {
    /** The option's value string. */
    function Value(): string {
      match this
      case Thirty => "30"
      case Sixty => "60"
      case Ninety => "90"
    }
  }

  datatype Style = Automatic | Dynamic | Educational | Entertainment

  datatype Quality = HD | FullHD | UltraHD4K

  datatype ProcessingConfig = ProcessingConfig(duration: Duration, style: Style, quality: Quality)

  /** The phases of a run, in the order a run passes through them. */
  datatype Stage = Uploading | Processing | Generating | Complete {
    function Index(): nat {
      match this
      case Uploading => 0
      case Processing => 1
      case Generating => 2
      case Complete => 3
    }
  }

  /** What the page shows while a run is going: a percentage, the phase and
      a line of text. */
  datatype UploadProgress = UploadProgress(progress: int, stage: Stage, message: string)

  /** One generated short. The two links are optional fields of the record. */
  datatype VideoResult = VideoResult(
    id: string,
    title: string,
    duration: string,
    thumbnail: string,
    size: string,
    downloadUrl: Option<string>,
    previewUrl: Option<string>)
}
