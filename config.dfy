/** The process-wide settings object. It is built once and shared by every
    client, so a change one request makes to `mockMode` or `geminiModel` is seen
    by every later request. */
module Config {
  import opened Wrappers

  const DefaultModel := "gemini-1.5-pro-latest"
  const DefaultMaxInputChars := 12000

  class Settings {
    const apiKey: Option<string>
    var geminiModel: string
    var mockMode: bool
    const maxInputChars: int

    /** Settings with the declared defaults for whatever the environment leaves unset. */
    constructor (apiKey: Option<string> := None, geminiModel: string := DefaultModel,
                 mockMode: bool := true, maxInputChars: int := DefaultMaxInputChars)
      ensures this.apiKey == apiKey && this.geminiModel == geminiModel
      ensures this.mockMode == mockMode && this.maxInputChars == maxInputChars
    {
      this.apiKey := apiKey;
      this.geminiModel := geminiModel;
      this.mockMode := mockMode;
      this.maxInputChars := maxInputChars;
    }
  }
}
