/** The one call to the image service (app.py `generate_image`). The client
    library, the network and base64 decoding are not modelled: the service is
    a total function from a request to either the decoded image bytes or the
    message of the exception it raised. The result records which requests
    were made, so that "no request without a key" can be stated. */
module Generation {
  import opened Results

  type Bytes = seq<bv8>

  /** The model identifier every request names. */
  const ModelName := "gpt-image-1.5"

  datatype ImageRequest = ImageRequest(model: string, prompt: string, size: string, quality: string, count: nat)

  /** What the service call ends in: decoded image bytes, or an exception
      whose `str()` is `message`. */
  datatype ServiceReply = Delivered(image: Bytes) | Raised(message: string)

  type Service = ImageRequest -> ServiceReply

  /** Python's `(image_bytes, error_message)` tuple, plus the requests sent. */
  datatype Generated = Generated(image: Option<Bytes>, error: Option<string>, requests: seq<ImageRequest>)

  const MissingKeyMessage := "エラー: OPENAI_API_KEY環境変数が設定されていません"
  const FailurePrefix := "エラーが発生しました: "

  /** `if not api_key`: an absent key and an empty key both fail. */
  predicate HasKey(apiKey: Option<string>) {
    apiKey.Some? && apiKey.value != []
  }

  /** The single request made for a prompt: one image of the given size and
      quality from the fixed model. */
  function RequestFor(prompt: string, size: string, quality: string): ImageRequest {
    ImageRequest(ModelName, prompt, size, quality, 1)
  }

  /** `generate_image`: without a key, the missing-key message and no
      request; otherwise exactly one request, whose outcome becomes either the
      bytes or the prefixed exception message. Exactly one of bytes and
      message is present, and a message is never empty (the caller tests it
      for truthiness). */
  function GenerateImage(prompt: string, size: string, quality: string, apiKey: Option<string>, service: Service)
    : (g: Generated)
    ensures g.image.Some? != g.error.Some?
    ensures g.error.Some? ==> g.error.value != []
    ensures !HasKey(apiKey) ==> g.requests == [] && g.error == Some(MissingKeyMessage)
    ensures HasKey(apiKey) ==> g.requests == [RequestFor(prompt, size, quality)]
    ensures g.image.Some? <==> HasKey(apiKey) && service(RequestFor(prompt, size, quality)).Delivered?
    ensures g.image.Some? ==> g.image.value == service(RequestFor(prompt, size, quality)).image
    ensures HasKey(apiKey) && service(RequestFor(prompt, size, quality)).Raised? ==>
              g.error == Some(FailurePrefix + service(RequestFor(prompt, size, quality)).message)
  {
    if !HasKey(apiKey) then Generated(None, Some(MissingKeyMessage), [])
    else
      var request := RequestFor(prompt, size, quality);
      match service(request)
      case Delivered(image) => Generated(Some(image), None, [request])
      case Raised(message) => Generated(None, Some(FailurePrefix + message), [request])
  }
}
