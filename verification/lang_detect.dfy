/** The interface of the `langdetect` library as both services see it: a call
    on a text either names a language or raises. Which language it names is
    not modelled. */
module LangDetect {
  import opened Exceptions

  /** What `langdetect.detect(text)` did. */
  datatype Detection = Detected(language: string) | DetectFailed(exception: Exception)
}
