/** The app-wide state store: a single mutable record whose fields are replaced
    one at a time by toggles, setters and the registration-image list operations. */
module Store {
  import opened Values

  /** The result object the verification screen shows and publishes. */
  datatype UiResult = UiResult(success: bool, name: Json, message: Json)

  /** What asking the platform for its colour scheme did. */
  datatype SchemeReading = Scheme(value: Option<string>) | SchemeThrew

  const DefaultServerUrl: string := "http://192.168.1.7:8000"

  /** The dark theme is chosen exactly when the platform reports `dark`; a failing
      query falls back to the light theme. */
  function InitialTheme(reading: SchemeReading): (dark: bool)
    ensures dark <==> reading == Scheme(Some("dark"))
    ensures reading == SchemeThrew ==> !dark
  {
    match reading
    case Scheme(v) => v == Some("dark")
    case SchemeThrew => false
  }

  /** `front` becomes `back`; every other value becomes `front`. */
  function NextCamera(facing: string): (r: string)
    ensures facing == "front" ==> r == "back"
    ensures facing != "front" ==> r == "front"
    ensures r == "front" || r == "back"
  {
    if facing == "front" then "back" else "front"
  }

  /** Toggling twice returns to `front` or `back`; from any other value it lands on `back`. */
  lemma ToggleCameraTwice(facing: string)
    ensures facing == "front" || facing == "back" ==> NextCamera(NextCamera(facing)) == facing
    ensures facing != "front" && facing != "back" ==> NextCamera(NextCamera(facing)) == "back"
  {
  }

  /** The store's fields as one value. */
  datatype StoreState = StoreState(
    isDarkMode: bool,
    cameraType: string,
    faceDetected: bool,
    isRecognizing: bool,
    recognitionResult: Option<UiResult>,
    registrationImages: seq<string>,
    serverUrl: string,
    deviceId: Option<string>)

  class AppStore {
    var isDarkMode: bool
    var cameraType: string
    var faceDetected: bool
    var isRecognizing: bool
    var recognitionResult: Option<UiResult>
    var registrationImages: seq<string>
    var serverUrl: string
    var deviceId: Option<string>

    function State(): StoreState
      reads this
    {
      StoreState(isDarkMode, cameraType, faceDetected, isRecognizing, recognitionResult,
                 registrationImages, serverUrl, deviceId)
    }

    /** The store as created at start-up. */
    constructor (reading: SchemeReading)
      ensures State() == StoreState(InitialTheme(reading), "front", false, false, None, [], DefaultServerUrl, None)
    {
      isDarkMode := InitialTheme(reading);
      cameraType := "front";
      faceDetected := false;
      isRecognizing := false;
      recognitionResult := None;
      registrationImages := [];
      serverUrl := DefaultServerUrl;
      deviceId := None;
    }

    method ToggleTheme()
      modifies this
      ensures State() == old(State()).(isDarkMode := !old(isDarkMode))
    {
      isDarkMode := !isDarkMode;
    }

    method ToggleCamera()
      modifies this
      ensures State() == old(State()).(cameraType := NextCamera(old(cameraType)))
    {
      cameraType := NextCamera(cameraType);
    }

    method SetFaceDetected(detected: bool)
      modifies this
      ensures State() == old(State()).(faceDetected := detected)
    {
      faceDetected := detected;
    }

    method SetIsRecognizing(recognizing: bool)
      modifies this
      ensures State() == old(State()).(isRecognizing := recognizing)
    {
      isRecognizing := recognizing;
    }

    method SetRecognitionResult(result: Option<UiResult>)
      modifies this
      ensures State() == old(State()).(recognitionResult := result)
    {
      recognitionResult := result;
    }

    /** Appends one image at the end; the earlier images are kept in order. */
    method AddRegistrationImage(image: string)
      modifies this
      ensures State() == old(State()).(registrationImages := old(registrationImages) + [image])
      ensures |registrationImages| == |old(registrationImages)| + 1
      ensures registrationImages[..|old(registrationImages)|] == old(registrationImages)
    {
      registrationImages := registrationImages + [image];
    }

    method ClearRegistrationImages()
      modifies this
      ensures State() == old(State()).(registrationImages := [])
    {
      registrationImages := [];
    }

    method SetServerUrl(url: string)
      modifies this
      ensures State() == old(State()).(serverUrl := url)
    {
      serverUrl := url;
    }

    method SetDeviceId(id: Option<string>)
      modifies this
      ensures State() == old(State()).(deviceId := id)
    {
      deviceId := id;
    }
  }
}
