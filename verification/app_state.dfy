/** The application's top-level state machine: waiting for a file,
    processing it, ready to replay, or showing an error. */
module AppState {
  import opened Common

  datatype Phase = WaitingForFile | Processing | Ready | Error

  class StateManager {
    var state: Phase
    var inputFilePath: Option<string>
    var outputDir: Option<string>
    var errorMessage: Option<string>
    var progressMessage: string
    var progressPercent: real
    /** Whether a state-change callback has been registered. */
    var hasCallback: bool
    /** Every (old, new) pair the callback has been called with, in order. */
    var notifications: seq<(Phase, Phase)>

    /** What each phase needs: the file being processed, the directory
        ready to replay, the message of the error. */
    predicate Consistent()
      reads this
    {
      (state == Processing ==> inputFilePath.Some?)
      && (state == Ready ==> outputDir.Some?)
      && (state == Error ==> errorMessage.Some?)
    }

    constructor ()
      ensures state == WaitingForFile && Consistent()
      ensures inputFilePath == None && outputDir == None && errorMessage == None
      ensures progressMessage == "" && progressPercent == 0.0
      ensures !hasCallback && notifications == []
    {
      state := WaitingForFile;
      inputFilePath, outputDir, errorMessage := None, None, None;
      progressMessage, progressPercent := "", 0.0;
      hasCallback, notifications := false, [];
    }

    /** `set_state_change_callback`: `transition_to` calls the callback
        only when it is truthy, so a `None` callback registers nothing. */
    method SetStateChangeCallback(callbackTruthy: bool)
      modifies this
      ensures hasCallback == callbackTruthy
      ensures state == old(state) && notifications == old(notifications)
      ensures inputFilePath == old(inputFilePath) && outputDir == old(outputDir)
      ensures errorMessage == old(errorMessage)
      ensures progressMessage == old(progressMessage) && progressPercent == old(progressPercent)
    {
      hasCallback := callbackTruthy;
    }

    /** `transition_to`: the new state, and one callback call with
        (old, new) when a callback is registered (even if the state is
        unchanged). */
    method TransitionTo(newState: Phase)
      modifies this
      ensures state == newState
      ensures notifications == old(notifications) + (if hasCallback then [(old(state), newState)] else [])
      ensures hasCallback == old(hasCallback)
      ensures inputFilePath == old(inputFilePath) && outputDir == old(outputDir)
      ensures errorMessage == old(errorMessage)
      ensures progressMessage == old(progressMessage) && progressPercent == old(progressPercent)
    {
      var oldState := state;
      state := newState;
      if hasCallback {
        notifications := notifications + [(oldState, newState)];
      }
    }

    /** `set_input_file`: the file to process; any error is cleared. */
    method SetInputFile(filePath: string)
      modifies this
      ensures state == Processing && Consistent()
      ensures inputFilePath == Some(filePath) && errorMessage == None && outputDir == old(outputDir)
      ensures notifications == old(notifications) + (if hasCallback then [(old(state), Processing)] else [])
      ensures hasCallback == old(hasCallback)
      ensures progressMessage == old(progressMessage) && progressPercent == old(progressPercent)
    {
      inputFilePath := Some(filePath);
      errorMessage := None;
      TransitionTo(Processing);
    }

    /** `set_processed_dir`: an already processed directory goes straight
        to Ready with no input file. */
    method SetProcessedDir(dirPath: string)
      modifies this
      ensures state == Ready && Consistent()
      ensures outputDir == Some(dirPath) && inputFilePath == None && errorMessage == None
      ensures notifications == old(notifications) + (if hasCallback then [(old(state), Ready)] else [])
      ensures hasCallback == old(hasCallback)
      ensures progressMessage == old(progressMessage) && progressPercent == old(progressPercent)
    {
      outputDir := Some(dirPath);
      inputFilePath := None;
      errorMessage := None;
      TransitionTo(Ready);
    }

    /** `set_processing_progress`: never changes the state. */
    method SetProcessingProgress(message: string, percent: real)
      modifies this
      ensures progressMessage == message && progressPercent == percent
      ensures state == old(state) && notifications == old(notifications) && hasCallback == old(hasCallback)
      ensures inputFilePath == old(inputFilePath) && outputDir == old(outputDir)
      ensures errorMessage == old(errorMessage)
    {
      progressMessage := message;
      progressPercent := percent;
    }

    /** `set_ready`: processing finished into outputDir. */
    method SetReady(dir: string)
      modifies this
      ensures state == Ready && Consistent()
      ensures outputDir == Some(dir)
      ensures inputFilePath == old(inputFilePath) && errorMessage == old(errorMessage)
      ensures notifications == old(notifications) + (if hasCallback then [(old(state), Ready)] else [])
      ensures hasCallback == old(hasCallback)
      ensures progressMessage == old(progressMessage) && progressPercent == old(progressPercent)
    {
      outputDir := Some(dir);
      TransitionTo(Ready);
    }

    /** `set_error`. */
    method SetError(message: string)
      modifies this
      ensures state == Error && Consistent()
      ensures errorMessage == Some(message)
      ensures inputFilePath == old(inputFilePath) && outputDir == old(outputDir)
      ensures notifications == old(notifications) + (if hasCallback then [(old(state), Error)] else [])
      ensures hasCallback == old(hasCallback)
      ensures progressMessage == old(progressMessage) && progressPercent == old(progressPercent)
    {
      errorMessage := Some(message);
      TransitionTo(Error);
    }

    /** `reset`: every field cleared, back to waiting for a file. */
    method Reset()
      modifies this
      ensures state == WaitingForFile && Consistent()
      ensures inputFilePath == None && outputDir == None && errorMessage == None
      ensures progressMessage == "" && progressPercent == 0.0
      ensures notifications == old(notifications) + (if hasCallback then [(old(state), WaitingForFile)] else [])
      ensures hasCallback == old(hasCallback)
    {
      inputFilePath, outputDir, errorMessage := None, None, None;
      progressMessage, progressPercent := "", 0.0;
      TransitionTo(WaitingForFile);
    }
  }
}
